/** Blocked-domain matching: suffix walks over strings decide a specification over labels. */
module Blocklist {
  import opened Names

  /** `exact` entries block a name and everything below it, `wildcard` entries only what is below. */
  datatype Lists = Lists(exact: set<string>, wildcard: set<string>)

  function Labels(name: string): seq<string> { Split(name, '.') }

  predicate SuffixOf(a: seq<string>, b: seq<string>) {
    |a| <= |b| && b[|b| - |a|..] == a
  }

  predicate Blocks(l: Lists, name: string) {
    || (exists e | e in l.exact :: SuffixOf(Labels(e), Labels(name)))
    || (exists w | w in l.wildcard :: |Labels(w)| < |Labels(name)| && SuffixOf(Labels(w), Labels(name)))
  }

  /** Names with the same labels are the same string. */
  lemma LabelsInjective(a: string, b: string)
    requires Labels(a) == Labels(b)
    ensures a == b
  {
    JoinSplit(a, '.');
    JoinSplit(b, '.');
  }

  lemma DropLabel(s: string)
    requires '.' in s
    ensures var i := Find(s, '.');
            i < |s| && Labels(s[i + 1..]) == Labels(s)[1..] && |Labels(s)| >= 2
  {
    hide Find;
    assert s[..|s|] == s;
  }

  lemma OneLabel(s: string)
    requires Find(s, '.') == |s|
    ensures Labels(s) == [s]
  {
  }

  /** Everything below a blocked name is blocked, and so is everything below a wildcard's own name. */
  lemma BlocksSubdomains(l: Lists, front: string, name: string)
    requires '.' !in front
    ensures Blocks(l, name) ==> Blocks(l, front + "." + name)
    ensures name in l.wildcard ==> Blocks(l, front + "." + name)
  {
    var sub := front + ['.'] + name;
    assert sub == front + "." + name;
    FindSkips(front, '.', name);
    assert sub[|front| + 1..] == name && sub[..|front|] == front;
    assert Labels(sub) == [front] + Labels(name);
    forall a | SuffixOf(a, Labels(name)) ensures SuffixOf(a, Labels(sub)) {
      assert Labels(sub)[|Labels(sub)| - |a|..] == Labels(name)[|Labels(name)| - |a|..];
    }
    assert SuffixOf(Labels(name), Labels(name));
  }

  /** Blocking distributes over the union of lists. */
  lemma BlocksUnion(a: Lists, b: Lists, name: string)
    ensures Blocks(Lists(a.exact + b.exact, a.wildcard + b.wildcard), name) <==>
            Blocks(a, name) || Blocks(b, name)
  {
  }

  /** Names equal up to case are blocked alike. */
  lemma CaseIsIgnored(l: Lists, m: DnsName, n: DnsName)
    requires SameName(m, n)
    ensures Blocks(l, KeyName(m)) <==> Blocks(l, KeyName(n))
  {
    hide SameName, KeyName;
    KeyNameIdentifies(m, n);
  }

  /** An exact entry without capitals blocks every name that ends in its labels, in whatever case it is asked for. */
  lemma BlocksInAnyCase(l: Lists, e: string, n: DnsName)
    requires e in l.exact && NoCapitals(e) && 0 < |Labels(e)| <= |n|
    requires SameLabels(n[|n| - |Labels(e)|..], Labels(e))
    ensures Blocks(l, KeyName(n))
  {
    hide KeyName, SameText, Split, Lower, NoCapitals;
    KeyNameIs(n);
    var ls, es := LowerLabels(n), Labels(e);
    forall i | 0 <= i < |es| ensures ls[|n| - |es| + i] == es[i] {
      assert SameText(n[|n| - |es|..][i], es[i]);
      NoCapitalsInLabels(e, i);
      LowerIff(n[|n| - |es| + i], es[i]);
      AlreadyLower(es[i]);
    }
    assert ls[|ls| - |es|..] == es;
    assert SuffixOf(Labels(e), Labels(KeyName(n)));
  }

  lemma AlreadyLower(s: string)
    requires NoCapitals(s)
    ensures Lower(s) == s
  {
  }

  lemma {:induction false} NoCapitalsInLabels(e: string, i: nat)
    requires NoCapitals(e) && i < |Labels(e)|
    ensures NoCapitals(Labels(e)[i])
    decreases |e|
  {
    var j := Find(e, '.');
    if j < |e| && i > 0 {
      NoCapitalsInLabels(e[j + 1..], i - 1);
    }
  }

  /** A wildcard never blocks its own name; an exact entry always does. */
  lemma ApexRule(d: string)
    ensures !Blocks(Lists({}, {d}), d) && Blocks(Lists({d}, {}), d)
  {
    assert SuffixOf(Labels(d), Labels(d));
  }

  class Matcher {
    const lists: Lists

    constructor (lists: Lists)
      ensures this.lists == lists
    {
      this.lists := lists;
    }

    /**
     * Two suffix walks, the second only when there are wildcards. `lookups` counts set lookups: one per
     * label suffices exactly when no wildcard walk happens, and a name that gets through with wildcards
     * around costs almost twice that.
     */
    method IsBlocked(name: string) returns (blocked: bool, ghost lookups: nat)
      ensures blocked <==> Blocks(lists, name)
      ensures lookups <= 2 * |Labels(name)| - 1
      ensures lookups <= |Labels(name)| <==>
              lists.wildcard == {} || |Labels(name)| == 1 || Blocks(Lists(lists.exact, {}), name)
      ensures !blocked && lists.wildcard != {} ==> lookups == 2 * |Labels(name)| - 1
    {
      ghost var labels := Labels(name);
      var suffix := name;
      ghost var k := 0;
      lookups := 0;
      while true
        invariant k < |labels| && Labels(suffix) == labels[k..] && lookups == k
        invariant forall e | e in lists.exact && SuffixOf(Labels(e), labels) :: |Labels(e)| <= |labels| - k
        decreases |suffix|
      {
        lookups := lookups + 1;
        if suffix in lists.exact {
          assert SuffixOf(Labels(suffix), labels);
          return true, lookups;
        }
        forall e | e in lists.exact && SuffixOf(Labels(e), labels) ensures |Labels(e)| < |labels| - k {
          if |Labels(e)| == |labels| - k {
            LabelsInjective(e, suffix);
          }
        }
        var i := Find(suffix, '.');
        if i == |suffix| {
          OneLabel(suffix);
          break;
        }
        DropLabel(suffix);
        suffix := suffix[i + 1..];
        k := k + 1;
      }
      assert forall e | e in lists.exact :: !SuffixOf(Labels(e), labels);
      blocked := false;
      if lists.wildcard != {} {
        var i := Find(name, '.');
        if i < |name| {
          DropLabel(name);
          blocked, lookups := WalkParents(name, name[i + 1..], lookups);
        } else {
          OneLabel(name);
        }
      }
    }

    method WalkParents(ghost name: string, start: string, ghost before: nat)
      returns (blocked: bool, ghost lookups: nat)
      requires before <= |Labels(name)| && |Labels(name)| >= 2 && Labels(start) == Labels(name)[1..]
      ensures blocked <==>
              exists w | w in lists.wildcard :: |Labels(w)| < |Labels(name)| && SuffixOf(Labels(w), Labels(name))
      ensures before < lookups <= before + |Labels(name)| - 1
      ensures !blocked ==> lookups == before + |Labels(name)| - 1
    {
      ghost var labels := Labels(name);
      var parent := start;
      ghost var k := 1;
      lookups := before;
      while true
        invariant 1 <= k < |labels| && Labels(parent) == labels[k..] && lookups == before + k - 1
        invariant forall w | w in lists.wildcard && |Labels(w)| < |labels| && SuffixOf(Labels(w), labels) ::
                    |Labels(w)| <= |labels| - k
        decreases |parent|
      {
        lookups := lookups + 1;
        if parent in lists.wildcard {
          assert SuffixOf(Labels(parent), labels);
          return true, lookups;
        }
        forall w | w in lists.wildcard && |Labels(w)| < |labels| && SuffixOf(Labels(w), labels)
          ensures |Labels(w)| < |labels| - k
        {
          if |Labels(w)| == |labels| - k {
            LabelsInjective(w, parent);
          }
        }
        var j := Find(parent, '.');
        if j == |parent| {
          OneLabel(parent);
          break;
        }
        DropLabel(parent);
        parent := parent[j + 1..];
        k := k + 1;
      }
      blocked := false;
    }
  }
}

# A verified model of the blocking DNS resolver

The resolver answers DNS queries from a blocklist, a cache in RAM and upstream servers. Cached
replies travel from upstream to RAM and, through a bounded channel and a batching writer, to an
embedded table on disk, from where a restart loads them back. This project models that pipeline and
proves what its users rely on: what is served, how old it may be, what survives a crash, and that
neither permits nor counts leak.

`dafny verify dfyconfig.toml` checks everything.

## How it is built

The program appears twice, and the two are tied together.

* **As a step system** (`Resolver`). One state holds the clock, the tasks with their place in
  `handle`, the flights of the single-flight cache, permits, counters, the RAM cache, the persist
  channel with its writer, the disk table, the blocklist with its file, and a history that no step
  reads. Twenty-two kinds of step interleave freely: every await point of a query, both halves of a
  purge and of a blocklist edit, flushes that work or fail, eviction, crash, restart, and the warm
  load entry by entry; start-up reads, commits and deletions may fail. `Frames` says what each kind of step
  leaves alone; `SingleFlight`, `Provenance`, `Durability`, `Accounting`, `Precedence` and `Edits` prove the
  inductive invariants; `Runs` states the guarantees over every reachable state, and `Lengthening` exhibits a run.
* **As the code it is** (`Service`, `Connection`). The class `AppState` has the fields the program
  shares between tasks, the writer's buffer and the database, and one method for each stretch of code
  between await points of a query, of the writer, of the purge task and of a blocklist edit, so callers
  may interleave them as the runtime does. Its validity says that the fields mirror a *reachable* state of
  the step system, and every method keeps that (`Steps` says what each step is to the shared fields); so
  the guarantees of `Runs` hold of the bytes these methods return. Its constructor starts from whatever
  an installation or a crash left, warm load included. `Serve` and `ServeConnection` run whole packets and
  whole TCP connections without interruption and pin down everything they change.

The parts underneath are methods proved against specifications, with lemmas about the
specifications: `Names` and `Wire` (keys, ids, reply validation), `Upstream` (failover, TTLs), `Store`
(row codec, batches, loads, purges) over `Digits` and `Order` (positional numerals, byte-wise order),
`WriteBehind` (the batcher), `Blocklist`, `BlocklistText` and `BlocklistFile` (matching, normalizing,
saving), `Framing` (TCP), `QueryLog` (segment names, retention) and `Sql` (the log viewer's filter).

DNS messages are byte sequences whose first two bytes are the id (section 4.1.1 of RFC 1035); how the
rest decodes is a parameter of every statement that needs it, so no statement depends on a decoder.

## What the code does not do

Each of these is a property one might expect, with an input that breaks it and the exact condition
under which it holds.

* **Normalizing is not idempotent.** `"foo. ."` becomes `"foo."`, which becomes `"foo"`
  (`NormalizeNotIdempotent`). It is idempotent on a line if and only if the host part does not end in a dot,
  then blanks, then only dots (`IdempotentIff`).
* **A saved blocklist need not read back.** The texts `foo. .`, `http://#x` and `http://*.x` each give an entry
  that changes when read again (`UncleanTexts`). Saving and reloading gives the same sets if and only if every entry
  is clean (`SaveReloadIff`); for a list that came from text, `ParsedTextCleanIff` is what remains of that.
* **Overlapping blocklist edits can cross.** The file is written before the list is published and edits are not
  serialized, so file and resolver can end up with different lists (`CrossedEditsDiverge`; `SuchTextsExist` gives
  two texts to cross). With no edit pending they hold the same list if and only if the edit published last stands
  for the same list as the edit saved last (`EditsAgreeIff`, which also covers the time before the first
  publication); so they do whenever no edit is saved while another is pending.
* **A restart can lengthen a lifetime**, by less than a second plus insert time: remaining lifetimes are
  computed from whole seconds. `RestartCanLengthen` is a run in which it happens, `RestartLengthensIff` says exactly
  when, and with whole-second readings and no insert drift it never does (`WholeSecondsAreExact`). Lifetimes do not add
  up over several restarts (`RamAnswersAreFresh`).
* **A purge can lose a fresh row.** It collects and deletes in two transactions, and a row refreshed in between is
  deleted (`InterruptedPurgeLoses`). A purge is invisible if and only if no collected key holds an unexpired entry at
  the delete (`PurgeInvisibleIff`; step by step, `StepLosesNothingIff`).
* **Segment names stop sorting by age** when sequence numbers of one millisecond reach seven digits
  (`SeventhDigitBreaksOrder`); `SequenceOrderIff` and `ListingSortsIff` are the exact conditions.
* **Matching can cost more than the one lookup per label** that the repository's README promises. A name of two
  labels that nothing blocks costs three when there is a wildcard. One per label suffices if and only if there are
  no wildcards, the name has one label, or an exact entry blocks it (`IsBlocked`).

The 16-bit length prefix of TCP is a cast that would cut a message over 65535 bytes; no message that is ever sent
is that long (`ClientReadsResponses`, `AnswersAreUpstreamReplies`).

## Model

| member | source | states |
|---|---|---|
| Wire.PatchId | src/dns.rs:106-113 | overwriting the first two bytes of a copy gives the id patch and leaves every other byte and the length alone |
| Wire.PatchedParses | src/dns.rs:106-113 | whatever the decoder does with the rest, patching changes what is decoded in the id alone, and decodability not at all |
| Wire.PatchedBytes | src/dns.rs:106-113 | patching with a query's id gives that query's first two bytes and the rest of the message |
| Wire.ValidResponseIff | src/upstream.rs:151-167 | the check passes a reply if and only if both messages decode, the reply's first two bytes are the query's, it is a response, and its first question is the query's letter by letter up to case, in type and in class |
| Wire.KeyIs | src/dns.rs:30-46 | a packet has a key if and only if it has a header and decodes to at least one question; the key is the printed name and the type of the first one |
| Wire.KeyIdentifiesQuestion | src/dns.rs:34-46 | two queries get the same cache key if and only if their first questions have the same type and the same labels letter by letter, a capital matching its small letter (section 2.3.3 of RFC 1035) |
| Wire.PatchedAnswersClient | src/dns.rs:49-73 | a validated reply to one query, patched for any client with the same key, is a response with that client's id and question name and type |
| Names.KeyNameIdentifies | src/dns.rs:34-35 | two names get one key name if and only if their labels match letter by letter, a capital matching its small letter, and no key name holds a capital |
| Upstream.TruncatedIff | src/upstream.rs:97-98 | a datagram counts as truncated if and only if it has three bytes and bit 0x02 of the third is set |
| Upstream.AskIff | src/upstream.rs:83-117 | what one server yields is the first 4096 bytes of its datagram, or its TCP reply if that is truncated |
| Upstream.UsableIff | src/upstream.rs:72-77 | a server is not passed over if and only if what it yields is acceptable, spelled out without the check |
| Upstream.ResolutionMeans | src/upstream.rs:61-81 | `resolve` errs if and only if no server yields an acceptable reply; otherwise its entry is the acceptable reply of the first server that does (same two id bytes, a response, same first question), at most 65535 bytes, expiring its TTL from now |
| Upstream.TtlMeans | src/upstream.rs:129-146 | the TTL is the least answer TTL, or the negative TTL for NXDOMAIN or no answers: the minimum if that is at most the minimum, the maximum if at least the maximum, and otherwise itself |
| Upstream.FirstUsable | src/upstream.rs:71-79 | the index found is of a usable reply and no earlier server had one |
| Upstream.Least | src/upstream.rs:136-140 | the minimum is one of the TTLs and at most each of them |
| Upstream.Forwarder.Resolve | src/upstream.rs:61-117 | the failover loop with TCP retry, over whatever list was set last, returns the acceptable reply of the first server that has one, errs if none has, whatever each server does at its turn, and makes at most two contacts per server it reaches |
| Store.KeyRoundTrip | src/cache.rs:154-167 | decoding an encoded key gives the key back, for every name and type |
| Store.KeyRoundTripBack | src/cache.rs:160-167 | every decodable key row is the encoding of what it decodes to |
| Store.ValRoundTrip | src/cache.rs:168-186 | decoding an encoded value gives expiry, TTL and message back for all 64-bit, 32-bit and byte contents |
| Store.ValRoundTripBack | src/cache.rs:175-186 | every decodable value row is the encoding of what it decodes to |
| Store.KeyOrder | src/cache.rs:152-159 | rows compare byte-wise exactly as (type, name) pairs do |
| Store.WrittenRefines | src/cache.rs:88-98 | on the decoded map, writing a batch is the last-writer-wins fold of its items |
| Store.FoldedIsLastFor | src/cache.rs:92-94 | after a batch a key holds its last item of the batch, or what it held before |
| Store.ReadAllMeans | src/cache.rs:101-119 | a load returns exactly the unexpired decodable entries under their keys, each with its remaining lifetime |
| Store.PurgeInvisibleIff | src/cache.rs:122-149 | deleting collected keys is invisible to every later load if and only if none of them holds an unexpired entry at the delete |
| Store.ExpiredKeysAre | src/cache.rs:128-135 | the keys a purge notes are those of rows that decode to an expiry second of at most now |
| Store.UninterruptedPurge | src/cache.rs:122-149 | with nothing committed between collect and delete, every later load reads the same with or without the purge |
| Store.InterruptedPurgeLoses | src/cache.rs:136-147 | a row refreshed between the two transactions is deleted with its whole lifetime left |
| Store.Database.WriteBatch | src/cache.rs:88-98 | one transaction inserts every item in order, or nothing when it fails |
| Store.Database.ReadAllValid | src/cache.rs:101-119 | the loop over the table in key order computes the specified load |
| Store.Database.CollectExpired | src/cache.rs:122-136 | the keys noted are exactly those of decodable rows that have expired |
| Store.Database.DeleteAll | src/cache.rs:140-147 | exactly the noted keys are removed, or none when the transaction fails |
| Store.Database.PurgeExpired | src/cache.rs:122-149 | run without interruption it leaves no entry whose expiry second is at most now, removes only such rows, no later load can tell, and the count it returns is the number of rows removed; a failed one changes nothing |
| WriteBehind.OfferConserves | src/dns.rs:65 | an offer, taken or refused, keeps the accepted items equal to batches, then buffer, then channel |
| WriteBehind.ReceiveConserves | src/cache.rs:208-216 | moving an item from channel to buffer keeps that order |
| WriteBehind.FlushConserves | src/cache.rs:222-234 | closing the buffer into a batch, committed or not, keeps that order |
| WriteBehind.Accounted | src/cache.rs:203-234 | every accepted item is, exactly once, committed, lost with its own batch, buffered or queued |
| WriteBehind.KeptIsPrefix | src/cache.rs:203-234 | while no flush fails the committed items are a prefix of the accepted ones, and all of them once buffer and channel are empty |
| WriteBehind.Writer.FlushBuffer | src/cache.rs:222-234 | the buffer is committed whole or lost whole, and is empty afterwards |
| WriteBehind.Writer.Wake | src/cache.rs:206-219 | one turn of the select loop: a tick, the close and the message that fills the buffer flush it into one commit, any other message only joins the buffer, and the order is kept |
| WriteBehind.Writer.Run | src/cache.rs:203-220 | over any events the writer holds or has flushed exactly the messages received, in order; right after a tick or the close the buffer is empty, so if no commit failed everything received is stored |
| Blocklist.Matcher.IsBlocked | src/blocklist.rs:56-87 | the suffix walks decide the label specification (an exact entry's labels are a suffix, or a wildcard's a proper suffix); one set lookup per label suffices if and only if there are no wildcards, the name has one label, or an exact entry blocks it, and a name let through past wildcards costs 2·labels − 1 |
| Blocklist.Matcher.WalkParents | src/blocklist.rs:71-84 | the second walk decides the wildcard part, with labels − 1 lookups when nothing matches |
| Blocklist.BlocksSubdomains | src/blocklist.rs:3-7 | everything below a blocked name is blocked, and everything below the name of a wildcard |
| Blocklist.ApexRule | src/blocklist.rs:3-7 | a wildcard alone leaves its own name alone, an exact entry blocks it |
| Blocklist.BlocksUnion | src/blocklist.rs:56-87 | the union of two lists blocks what one of them blocks |
| Blocklist.CaseIsIgnored | src/dns.rs:34-39 | names with the same labels up to the case of letters are blocked alike, by every list |
| Blocklist.BlocksInAnyCase | src/dns.rs:34-39 | an exact entry without capitals blocks every name that ends in its labels, in whatever case it is asked for |
| BlocklistText.Normalize | src/blocklist.rs:110-122 | the step-by-step edit computes the specified normal form |
| BlocklistText.HostOfUrl | src/blocklist.rs:111-120 | for every URL the host is what stands between the first "://" and a port, a path or the end, in lower case |
| BlocklistText.HostAlone | src/blocklist.rs:111-120 | without "://" it is what stands before a port, a path or the end |
| BlocklistText.SpacesAre | src/blocklist.rs:111 | exactly the six ASCII white-space characters are trimmed |
| BlocklistText.NormalizedShape | src/blocklist.rs:110-122 | the result is trimmed, lower case, free of slash and colon, and no longer than the host part of the input |
| BlocklistText.PlainFixedIff | src/blocklist.rs:121 | an output is left alone by another pass if and only if it does not end in a dot; otherwise the pass shortens it |
| BlocklistText.IdempotentIff | src/blocklist.rs:110-122 | one pass is idempotent on a line if and only if its host part has no dot followed by blanks and then only dots |
| BlocklistText.IdempotentWithoutBlanks | src/blocklist.rs:110-122 | in particular on every line whose trimmed form has no inner blank |
| BlocklistText.NormalizeNotIdempotent | src/blocklist.rs:121 | "foo. ." is not a fixed point after one pass |
| BlocklistText.ConvergesWithinLength | src/blocklist.rs:110-122 | as many passes as the line has characters reach a fixed point |
| BlocklistFile.FromText | src/blocklist.rs:32-53 | the loop over lines builds exactly the two specified sets |
| BlocklistFile.LinesAre | src/blocklist.rs:35 | a text is its lines up to each newline, with one carriage return before it dropped, and a non-empty rest |
| BlocklistFile.LineMeans | src/blocklist.rs:36-50 | blank lines and comments add nothing, a line after `*.` adds its normal form as a wildcard, any other its normal form as exact, and empty normal forms nothing |
| BlocklistFile.ToSortedVec | src/blocklist.rs:95-100 | the listing is sorted and holds each exact entry and each starred wildcard once |
| BlocklistFile.ListingUnique | src/blocklist.rs:95-100 | the listing does not depend on the iteration order of the hash sets |
| BlocklistFile.FileTextIs | src/blocklist.rs:102-106 | one entry a line, each line ended by a newline; an empty list is one empty line |
| BlocklistFile.SaveReloadIff | src/blocklist.rs:32-53 | reading a saved list back gives the same two sets if and only if every entry is clean: a non-empty fixed point without a newline, an exact one starting with neither `#` nor `*.` |
| BlocklistFile.LoadedParsed | src/blocklist.rs:32-53 | every entry that came from text is non-empty, trimmed, lower case, one line, without slash or colon |
| BlocklistFile.ParsedTextCleanIff | src/blocklist.rs:102-122 | a list that came from text is clean if and only if no entry ends in a dot and no exact entry starts with `#` or `*.` |
| BlocklistFile.UncleanTexts | src/blocklist.rs:36-50 | each of these three ways of being unclean happens for a real text: `foo. .`, `http://#x`, `http://*.x` |
| BlocklistFile.UrlLoads | src/blocklist.rs:109-122 | a pasted `http://` URL stands for exactly its host, for every plain host not ending in a dot |
| Framing.ReadFrame | src/dns.rs:250-261 | a framed message at the head of a stream is read back, and the rest is read as before |
| Framing.StreamSurvivesIff | src/dns.rs:274-280 | a stream of frames reads back as its messages if and only if each has at most 65535 bytes |
| Framing.ReadCut | src/dns.rs:250-261 | a stream cut anywhere reads back as exactly the whole messages before the cut |
| Framing.FrameSurvivesIff | src/upstream.rs:104-117 | the 16-bit length cast is harmless if and only if the message has at most 65535 bytes |
| Framing.ReadMessages | src/dns.rs:248-261 | the read loop of a connection yields exactly the whole messages of its stream |
| QueryLog.PaddedOrder | src/qlog.rs:141 | zero-padded numbers that fit the width compare as strings exactly as numbers |
| Order.FirstDifferenceDecides | src/qlog.rs:175 | the order used for sorting is decided by the first differing character, and a proper prefix comes first |
| QueryLog.EarlierSortsFirst | src/qlog.rs:140-142 | for stamps below 10^14 ms, an earlier segment sorts first whatever the sequence numbers |
| QueryLog.SameMillisecondSortsBySequence | src/qlog.rs:140-142 | below a million, sequence numbers order the segments of one millisecond |
| QueryLog.SequenceOrderIff | src/qlog.rs:140-142 | for all sequence numbers, exactly when the earlier of two segments of one millisecond sorts first: its number is at most what as many leading digits of the later one spell |
| QueryLog.SeventhDigitBreaksOrder | src/qlog.rs:140-142 | segment 1000000 of a millisecond sorts before segment 999999 |
| QueryLog.ListingSortsIff | src/qlog.rs:174-175 | for segments created in order, sorting any directory listing puts them in creation order if and only if every two segments of one millisecond sort in order |
| QueryLog.ShortSequencesSort | src/qlog.rs:140-142 | which holds whenever the sequence numbers are below a million |
| QueryLog.RetentionKeepsNewest | src/qlog.rs:163-186 | the pass over any listing of such segments leaves the newest ones, as many as fit, if removals work; if some fail it still tries them from the oldest on and stops as soon as the rest fits |
| QueryLog.SurvivorsAreLongestSuffix | src/qlog.rs:176-184 | when removals work, what is left is the longest newest suffix that fits the cap |
| QueryLog.SurvivorsInGeneral | src/qlog.rs:176-184 | whatever removals fail, a pass tries exactly the `k` oldest files, removing those it can; it is over the cap before each try, and afterwards within it unless all were tried |
| QueryLog.PrunedOnce | src/qlog.rs:176-184 | there is only one such `k` and only one such outcome |
| QueryLog.Directory.EnforceRetention | src/qlog.rs:163-186 | the loop leaves the specified files, its running total is the size of the files present, and no subtraction underflows |
| Sql.FilteredAppend | src/web.rs:219-221 | the filter acts character by character, in order |
| Sql.FilteredAt | src/web.rs:220 | it drops semicolons and backslashes and keeps every other character |
| Sql.ScanDoubled | src/web.rs:218-223 | a doubled text, quoted, is scanned back as that text and ends at its own closing quote |
| Sql.BuildWhere | src/web.rs:231-245 | the clause builder emits one clause per non-empty filter, joined |
| Sql.SingleFilters | src/web.rs:231-245 | the text generated for each of the three filters alone, spelled out |
| Sql.WhereReadsBack | src/web.rs:225-245 | whatever the inputs hold, the text reads as one conjunction of exactly the intended conditions, each literal being its input without semicolons and backslashes |
| SingleFlight.StepKeepsFlights | src/dns.rs:60-68 | every step keeps: one running flight per key, led by the query task that registered it, and no entry in RAM for a key being fetched |
| SingleFlight.OneFlightPerKey | src/dns.rs:53-68 | two tasks running the resolution of one key are the same task |
| SingleFlight.StepKeepsEvents | src/dns.rs:53-68 | every step keeps: between two starts for a key lies a failure, a removal or a crash |
| Provenance.StepKeepsSource | src/dns.rs:56-72 | every step keeps: RAM entries, pending results, channel, buffer, disk rows, entries being loaded and answers all come from accepted upstream replies under their own key |
| Provenance.WrittenOk | src/cache.rs:88-98 | a batch of genuine items leaves only genuine rows |
| Provenance.LoadedComes | src/main.rs:60-66 | an entry loaded at start-up is an accepted reply under its own key, and the 32-bit cast of its remaining lifetime loses nothing |
| Provenance.ResolveIsGenuine | src/upstream.rs:151-167 | what a resolution returns is a validated reply to the very query it was made for |
| Durability.StepKeepsDurable | src/cache.rs:203-234 | every step keeps: the table is the replay of the committed operations and accepted items are conserved |
| Durability.RowIsLastCommitted | src/cache.rs:88-98 | a row that is present equals the last committed value for its key; a missing one was purged after its last commit |
| Durability.CrashKeepsPrefix | src/cache.rs:203-234 | byte for byte, when no flush failed and no purge deleted anything: the disk is the fold of a prefix of the accepted items over the rows found at the start |
| Durability.DiskIsStartAndKept | src/cache.rs:203-234 | purges included: for every reader the disk is what the start found overwritten by the committed batches in order, which with no failed flush are a prefix of the accepted items |
| Durability.StepKeepsStart | src/cache.rs:122-149 | a step keeps what the start found readable as everything committed before |
| Durability.StepLosesNothingIff | src/cache.rs:122-149 | a step keeps the disk reading as everything ever committed if and only if it is not a successful delete of a key that holds an unexpired entry by then |
| Durability.QuietPurgeIsClean | src/cache.rs:122-149 | a purge with no commit between its two transactions is never such a step |
| Durability.StepKeepsPurge | src/cache.rs:124-136 | every step keeps: the keys a purge noted are exactly the rows that had expired when it looked |
| Accounting.StepKeepsAccounts | src/dns.rs:207-222 | every step keeps the permit and counter balances |
| Accounting.ConcurrencyBounds | src/upstream.rs:61-63 | running resolutions never exceed either cap nor the number of keys in flight |
| Precedence.StepKeepsLists | src/dns.rs:39-41 | every step keeps: a task past its check was cleared by a list in force since its admission, and the sinkhole answers exactly the names that list blocks |
| Precedence.StepKeepsFile | src/web.rs:98-105 | every step keeps: the file reads back as the list saved last, if that list is clean |
| Precedence.RestartRestoresList | src/main.rs:52 | a restart brings back the list saved last if and only if it is clean |
| Edits.StepKeepsEdits | src/web.rs:98-105 | every step keeps: the list in force is that of the edit published last or what the start read, the file that of the edit saved last, and only saved edits are published |
| Edits.AgreeIff | src/web.rs:98-105 | with no edit pending, file and resolver hold the same list if and only if the edit published last stands for the same list as the edit saved last; before any publication, if and only if nothing was saved or that list is clean |
| Edits.SerialEditsAgree | src/web.rs:98-105 | they always do if no edit was saved while another was pending |
| Edits.CrossedEditsDiverge | src/web.rs:98-105 | any two overlapping edits that stand for different lists, published in the opposite order, leave file and resolver with different lists |
| Edits.SuchTextsExist | src/blocklist.rs:32-53 | two texts that stand for different lists |
| Runs.RunKeepsInvariant | src/dns.rs:28-84 | every state of every run, over crashes and restarts, satisfies all invariants |
| Runs.AnswersAreUpstreamReplies | src/dns.rs:49-72 | over all runs, every answer from RAM, disk or upstream is the client's two id bytes followed by the rest of one acceptable upstream reply, is a response with the client's id, question name and type, and survives TCP framing |
| Runs.StoredIsGenuine | src/cache.rs:88-119 | over all runs, every RAM entry and disk row is a validated reply to a query with that key |
| Runs.RamAnswersAreFresh | src/cache.rs:35-47 | over all runs and restarts, an answer from RAM comes from one genuine reply under its key, and either its entry counts from that reply's own acceptance and is used before acceptance + max(ttl, 1) + insert drift, or it counts from the clock reading of the answering process's start and is used before the stored expiry second + that reading's sub-second part + insert drift |
| Runs.RestartLengthensIff | src/cache.rs:112-114 | exactly when a restart lengthens an entry's lifetime: when sub-second part plus insert drift grow |
| Lengthening.RestartCanLengthen | src/main.rs:60-66 | for every query that meets a one-second reply at 0 ms there is a run (accept, insert, flush, crash, start at 999 ms, load) in which the entry lives until 1000 ms in one life of the process and until 1999 ms in the next |
| Runs.SingleFlightHolds | src/dns.rs:53-68 | over all runs at most one resolution runs per key, and two starts for a key are separated by a failure, a removal or a crash |
| Runs.LoadIsBounded | src/dns.rs:207-222 | over all runs free permits plus holders equal max(1, cap) for both semaphores, and running resolutions are at most both caps and the keys in flight |
| Runs.EveryQueryIsCounted | src/stats.rs:7-15 | over all runs queries = blocked + hits + forwarded + errors + undecided; packets = dropped + admitted; successful resolutions = items accepted by the persist channel + offers refused + offers still to be made, and at most forwarded + leaders on their way |
| Runs.LiveBlocklistWins | src/dns.rs:39-42 | over all runs, an answer is the sinkhole if and only if the list in force at the query's check blocks its name, whatever RAM and disk hold, and no query it blocks gets past the check to cache, upstream or disk |
| Runs.DiskHoldsLastCommits | src/cache.rs:88-98 | over all runs accepted items are conserved, each row is the last commit for its key, and a missing one was purged |
| Runs.EditsAgreeIff | src/web.rs:98-105 | over all runs, the exact condition under which file and resolver hold the same list when no edit is pending |
| Runs.CrashKeepsPrefixForReaders | src/cache.rs:203-234 | over all clean runs, purges included, a crash leaves for every later reader what the process found at its start overwritten by its committed batches, with no failed flush a prefix of the accepted items: all but those buffered or queued |
| Runs.CrashKeepsAcceptedPrefix | src/cache.rs:203-234 | the same byte for byte, over all runs, for a life without failed flush or deletion |
| Runs.CleanRunsLoseNothing | src/main.rs:121-138 | in every run in which no purge deletes an unexpired entry, whatever was committed between its halves, the disk keeps reading as everything ever committed, and what the start found as everything committed before |
| Steps.ReachableStep | src/dns.rs:28-103 | steps taken by the code stay within the runs the guarantees are about |
| Steps.WarmLoadMeans | src/main.rs:60-66 | the warm load leaves at most `max_entries` entries in RAM, each unexpired on disk and held for what remains of its lifetime, and every such entry if the table has no more rows than that |
| Steps.InstalledIsReachable | src/main.rs:41-59 | a fresh installation is a stopped state that runs start from |
| Steps.CrashedIsReachable | src/main.rs:57-70 | what a crash leaves can be started again, with the same disk and blocklist file |
| Service.AppState.constructor | src/main.rs:52-104 | starting on what an installation or a crash left gives an idle resolver in a reachable state, with the list of the file, the specified warm cache (empty if the store cannot be read), all permits and zero counters |
| Service.AppState.Load | src/main.rs:64-66 | the insert loop of the warm load takes the steps of the system and computes the specified cache |
| Service.AppState.Admit | src/dns.rs:207-213 | a packet gets a permit or is counted as dropped, and follows the step system |
| Service.AppState.Begin | src/dns.rs:30-51 | parse, list check and cache read: silence, sinkhole, hit or miss exactly by key, list and entry, each counter moved once, hits faithful |
| Service.AppState.JoinOrLead | src/dns.rs:60-68 | a present entry is served, a running flight joined, otherwise one started |
| Service.AppState.Resolve | src/dns.rs:63 | the closure's resolution returns the specified entry and its permit, or ends the flight |
| Service.AppState.TrySend | src/dns.rs:65 | exactly one offer to the persist channel, dropped when it is full |
| Service.AppState.Insert | src/dns.rs:60-68 | the entry is in RAM and the flight over for all who wait |
| Service.AppState.Complete | src/dns.rs:69-82 | a waiter answers faithfully and counts as forwarded, or fails and counts as an error |
| Service.AppState.Leave | src/dns.rs:218-222 | the permit is given back once |
| Service.AppState.FlushBuffer | src/cache.rs:222-234 | the buffer is committed to the table as one batch or lost, and empty |
| Service.AppState.Drain | src/cache.rs:208-215 | the writer takes the oldest item and flushes exactly when its buffer is full |
| Service.AppState.CollectExpired | src/cache.rs:122-136 | the purge task notes exactly the expired keys |
| Service.AppState.DeleteExpired | src/cache.rs:140-147 | it deletes exactly the noted keys, or nothing when the transaction fails |
| Service.AppState.SaveBlocklist | src/web.rs:98-100 | the file reads back as the parsed list if and only if that is clean; nothing else changes |
| Service.AppState.PublishBlocklist | src/web.rs:105 | the list in force is the given one and queries under way are untouched |
| Service.AppState.SetBlocklist | src/web.rs:94-108 | both halves together: the list in force is the parsed one, and the file reads back as it if and only if it is clean |
| Service.AppState.Respond | src/dns.rs:28-103 | `handle` from parse to response for a query that need not wait for another: response, cache, persist channel and counters are exactly as specified |
| Service.AppState.Handle | src/dns.rs:217-222 | the same with the permit dropped and the query gone |
| Service.AppState.Serve | src/dns.rs:204-222 | a packet among any number of other queries, if it need not wait for one, is dropped and counted exactly when the pool is empty, and otherwise changes response, cache, persist channel and every counter exactly as specified |
| Service.AppState.IdleIsUnhindered | src/dns.rs:204-222 | on an idle resolver that condition holds for every packet and the pool is not empty |
| Service.RepeatIsServedFromRam | src/dns.rs:49-51 | whatever happens between two queries for a key, while the entry behind the first answer is still in RAM and alive the second gets the same bytes after the id and counts as a hit, whatever upstream would say |
| Connection.ServeConnection | src/dns.rs:248-288 | over a whole TCP stream each message is answered in order from the state the previous one left, and the client reads back exactly the responses, a carried one byte for byte at its position; if the pool is empty the first message is counted as dropped and the connection ends |
| Connection.OutputConveys | src/dns.rs:274-280 | what is written holds one message per response that is not silent, in order: a carried answer as its own bytes, the two others as the wire library builds them |
| Connection.ClientReadsResponses | src/dns.rs:274-280 | the client reads back exactly those messages: nothing ever sent exceeds its length prefix |

## Left out

- Sockets, `SO_REUSEPORT`, Tokio's scheduler, real timeouts and fsync: only their outcomes are kept, as steps that succeed or fail. Nothing is said about progress or fairness.
- DNS parsing and building in hickory, name compression, punycode and escaped dots: the decoder is a parameter (see `Wire.PatchedParses` below), the sinkhole and SERVFAIL messages stay abstract, and label text is dot-free ASCII.
- The internals of moka, redb, governor and arc-swap: an expiring map with single flight whose evictions happen at any time, atomic transactions, and an atomic pointer swap are taken as given. No bound on requests per second is claimed; the rate limiter is not modelled.
- Query class and EDNS: neither is part of the cache key, so answers are only claimed to agree in name and type.
- Unicode white space and lower-casing: ASCII only.
- Two clocks: one monotone millisecond clock stands for both `Instant` and `SystemTime`. Clock readings whose expiry would not fit 64 bits are excluded.
- An empty TTL range: the configuration must have `min_ttl <= max_ttl`, since `clamp` panics otherwise.
- Changes of the configuration while running: caps, TTL limits and the capacity of the RAM cache are fixed per model; the server list can change.
- A graceful shutdown is a crash like any other in the step system; `Writer.Run` covers the writer that is told its senders are gone.
- Parquet writing, DataFusion queries, routing, authentication, token generation, the web pages, `install.sh` and the deployment files.
- Loading and saving `config.toml`: straight-line validation and copying.
- The query-log record that `handle` sends: only the batcher behind that channel is modelled, shared with the cache's.
- LIKE wildcards inside the domain filter: `%` and `_` are not escaped by the program and keep their meaning within the literal.
- A blocklist file that cannot be written: `set_blocklist` returns before it changes anything, so there is no step for it.
- Service.AppState.Respond: covers a query that need not wait: it is blocked, or cached, or nobody fetches its key and an upstream permit is free. Waiting queries are covered by the methods it is made of and by the step system.
- Service.AppState.Handle: the same condition.
- Service.AppState.Serve: the same condition, whatever other queries are under way.
- Connection.ServeConnection: the same condition for each of its messages, served without interruption and without the timeouts between them.
- Connection.ClientReadsResponses: takes for granted that a message the resolver builds itself (one question, at most one record) has at most 552 bytes.
- QueryLog.ListingSortsIff: asks for stamps below 10^14 ms, which the padding holds until the year 5138.
- Wire.PatchedParses: the decoder is a function of the bytes after the id, so it leaves out a reply with a compression pointer to offset 0 or 1, into the id itself: patching such a message would change what it decodes to, and the lemmas built on this one do not cover it.

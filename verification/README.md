# TripTorrent in Dafny

TripTorrent is a relayed, chunked swarm-transfer protocol written in Rust. This project models its
deterministic core and proves what that core promises, over all inputs, all interleavings and all
histories. Six parts are covered.

1. **Swarm download.** The rarest-first scheduler (`Scheduler`), the step relation of the receiver, its
   result channel and its provider workers (`Download`), the receiver loop as a method that is proved to
   be a run of that relation (`DownloadLoop`) in a given environment (`DownloadEnvironment`), the
   crash-resumable partial file (`Resume`) and whole histories of it (`ResumeHistory`), the whole fetch
   from opening to publication as a step relation (`SwarmSession`) and as a method (`ReceiveSwarm`),
   content manifests and progress reports (`Content`), availability bitfields (`Availability`) and the
   rate limiter (`RateSchedule`). Main results: every run is free of internal errors, takes at most
   (missing chunks + providers) iterations and a bounded number of steps; every run, however its threads
   interleave, is a history of the disk; over every history of opens, writes, publications and crashes
   the disk claims only chunks it holds, and exactly which crashes leave a disk that no later process
   opens; a fetch publishes the content when every missing chunk is held by a provider that answers
   correctly, and however else it ends the disk opens again. Each holds unless other data met one of the
   content's digests, and then says where.
2. **Kademlia-style lookup.** The XOR metric (`XorMetric`), routing tables (`RoutingTables`) and the
   iterative lookup (`Lookup`). Main result: in a clean network every lookup finds a replica within the
   64-round cap, from every start; in any network a search stops exactly when its rules say.
3. **BitTorrent interoperability.** Strict bencoding (`Decimal`, `Bencode`, `BencodeParser`), metainfo
   identity (`Metainfo`), the BEP 52 Merkle root (`MerkleRoot`) and magnet hashes (`Base32`,
   `ExactTopic`). Main results: the parser accepts exactly the canonical encodings; the identity hashes
   exactly the canonical encoding of the info dictionary; the Merkle loop computes the padded perfect
   tree, and two files of one size and root collide at one place of their trees; hexadecimal and base32
   spell one hash.
4. **Wire codec.** Big-endian fields, records and the three message domains (`BigEndian`, `WireFields`,
   `WireRecords`, `WireLists`, `WireMessages`, `WireRequests`, `WireResponses`). Main result: decoding
   accepts exactly the written forms of well-formed messages, so encoding and decoding are inverse
   bijections, domain by domain, and every file small enough can be offered.
5. **Bootstrap registry.** The registry on values (`Registry`), the object that is updated in place
   (`RegistryService`), what each operation does to the leases and queues that can be looked up
   (`RegistryEffects`) and what each request is answered (`RegistryAnswers`), the invariant
   (`RegistryInvariant`), runs (`RegistryRuns`) and theorems about all runs (`RegistrySweeps`,
   `RegistryLeases`, `RegistryRoutes`), and one control connection from frame to frame
   (`RegistryConnection`). Maps are key-ordered lists (`ByteOrder`).
6. **Relay pairing and transfer status.** Route pairing (`Relay`) and the status row of one download
   under its concurrent writers, overlapping calls included (`TransferStatus`). Main results: streams
   are conserved and pairs spaced; an accepted pause is recorded exactly under a stated condition; a
   completed row is settled for good exactly under a stated condition.

`Prelude` holds optional values, results, bytes and bit arithmetic.

## Conventions

- Digest functions are parameters, and no theorem assumes that they do not collide. The source relies on
  collision resistance, so the results say what follows without it: the conclusion holds, or other data
  met one of the content's digests at a named point, which is a chunk accepted, a partial file found at
  the start, or a file published (`Resume.ForgedChunk`, `Resume.ForgedFile`, `Resume.ForgedDisk`). The
  Merkle result names the place in the two trees at which two different inputs have one digest.
- Bytes are integers from 0 to 255; `usize` is 64 bits wide. Masks and shifts are arithmetic on powers
  of two. Machine widths are written out where the source saturates, wraps or refuses.
- Time, random choices, worker behaviour and crash points are arguments or labels of steps. In the methods
  the workers' behaviour is a function: who answers next and what, from the number of answers so far and the
  requests queued, or that nobody does within the timeout.
- Automatic induction is switched off on every lemma that has parameters; every induction is written out.
- `verify_chunk` checks digests but not lengths, so the resume results are stated for manifests that
  `from_bytes` built.

## Model

| member | source | states |
|---|---|---|
| Availability.FromIndices | crates/triptorrent-protocol/src/lib.rs:66-77 | the bitfield is valid and its members are exactly the given indices below the count |
| Availability.All | crates/triptorrent-protocol/src/lib.rs:57-64 | the bitfield is valid and its members are exactly the indices below the count |
| Availability.AllEqualsFromIndices | crates/triptorrent-protocol/src/lib.rs:55-77 | `all(n)` is byte for byte the bitfield of the indices 0 to n-1 |
| Availability.ValidBitwise | crates/triptorrent-protocol/src/lib.rs:85-96 | a bitfield of the right length is valid exactly when no bit past the last chunk is set |
| Availability.MembersDetermineBytes | crates/triptorrent-protocol/src/lib.rs:79-96 | two valid bitfields over the same chunks with the same members are equal byte for byte |
| Scheduling.Scheduler.New | crates/triptorrent-swarm/src/lib.rs:48-86 | a scheduler exists exactly for matching lengths, at most 32-bit many chunks and valid availability of that count; the first failing check names the error |
| Scheduling.Scheduler.Assign | crates/triptorrent-swarm/src/lib.rs:90-110 | an idle active provider gets a chunk exactly when it holds a missing one; that chunk is the first of those with the fewest active holders, the holders being counted as a set, and it alone goes in flight; otherwise nothing changes |
| Scheduling.SourcesCounted | crates/triptorrent-swarm/src/lib.rs:188-194 | the count that decides rarity is the size of the set of active providers that hold the chunk |
| Scheduling.CanFinishExactly | crates/triptorrent-swarm/src/lib.rs:165-170 | the download can finish exactly when every missing chunk has an active holder |
| Scheduling.Scheduler.Accept | crates/triptorrent-swarm/src/lib.rs:117-130 | succeeds exactly when the chunk is in flight to that known provider, and then completes that chunk alone, frees that provider and counts one more for it; where requests match, a refusal changes nothing |
| Scheduling.Scheduler.Reject | crates/triptorrent-swarm/src/lib.rs:133-145 | deactivates the provider, returns exactly the chunks in flight to it to missing and counts a retry for each; everything else stays |
| Scheduling.AcceptInv | crates/triptorrent-swarm/src/lib.rs:117-130 | acceptance keeps the scheduler invariant and succeeds exactly for the chunk in flight to the caller |
| Scheduling.RejectInv | crates/triptorrent-swarm/src/lib.rs:133-145 | rejection keeps the scheduler invariant, changes at most one chunk, and costs one retry exactly when some chunk was in flight to the provider |
| Scheduling.ReachableInv | crates/triptorrent-swarm/src/lib.rs:48-170 | after any calls with any arguments: a provider is busy iff exactly one chunk is in flight to it, it is active and holds that chunk; completes = resumed + accepted; retries at most the inactive providers |
| Content.FromBytesReconstructs | crates/triptorrent-core/src/lib.rs:192-279 | every accepted file gives a well-shaped manifest whose own chunks verify and rebuild the exact bytes |
| Content.Reconstruct | crates/triptorrent-core/src/lib.rs:258-279 | succeeds exactly on all chunks in order, each verified, with the right total length and digest, and returns their concatenation |
| Content.ExpectedLength | crates/triptorrent-cli/src/lib.rs:1087-1102 | expected chunk lengths are positive and fill the content: chunk i ends at the smaller of (i+1) blocks and the length |
| Content.DoneBytesBound | crates/triptorrent-cli/src/lib.rs:853-882 | done bytes never pass the covered prefix and equal it exactly when all its chunks are done |
| Content.ReportVerifiedProgress | crates/triptorrent-cli/src/lib.rs:853-882 | reported bytes never exceed the total and equal it exactly when every chunk is done |
| Resume.SavedStateFits | crates/triptorrent-cli/src/lib.rs:917-1015 | no state file the program writes is larger than the size it accepts on opening |
| Resume.ResumeDownload.Open | crates/triptorrent-cli/src/lib.rs:917-990 | opens exactly on acceptable disks and then holds the saved record, every chunk of which verifies, or a fresh one; otherwise touches nothing; a fresh start passes through exactly the listed disks |
| Resume.ResumeDownload.ValidateResumedChunks | crates/triptorrent-cli/src/lib.rs:1060-1085 | succeeds exactly when every recorded chunk of the partial file has its digest |
| Resume.ResumeDownload.WriteVerifiedChunk | crates/triptorrent-cli/src/lib.rs:992-1006 | refuses unverified chunks without touching the disk; otherwise passes through exactly one disk per byte written in place, and only then those of saving the record that claims the chunk |
| Resume.ResumeDownload.SaveState | crates/triptorrent-cli/src/lib.rs:1008-1058 | replaces the state file, passing through a disk without one exactly where the rename cannot replace a file |
| Resume.ResumeDownload.Finish | crates/triptorrent-cli/src/lib.rs:1017-1046 | publishes exactly when length and digest are the requested ones, and passes through exactly the listed disks: an older output may be gone first, then the output is there, then the record goes |
| Resume.KeptOpens | crates/triptorrent-cli/src/lib.rs:917-990 | a disk whose record is for this manifest, fits and claims only what the partial file holds opens exactly when it has both files or neither |
| Resume.OpenableIsKept | crates/triptorrent-cli/src/lib.rs:917-990 | and every disk that opens is of that kind, unless a recorded chunk of it is other data under the digest of the content's chunk |
| Resume.CompletePublishes | crates/triptorrent-cli/src/lib.rs:1017-1046 | with every chunk recorded the final check passes and what is published is the content |
| Resume.TornAgrees | crates/triptorrent-cli/src/lib.rs:992-1006 | a write of a genuine chunk cut short at any byte disturbs no recorded chunk |
| ResumeHistory.Play | crates/triptorrent-cli/src/lib.rs:916-1085 | any sequence of opens, deliveries, publications and crashes, carried out by the program, leaves exactly the disks and records of the step function |
| ResumeHistory.HistorySafe | crates/triptorrent-cli/src/lib.rs:916-1085 | in every such history, until other data has been accepted under one of the content's digests, no disk claims a chunk it does not hold, and the output is the earlier one, none, or the content |
| ResumeHistory.OpensExactlyWithBoth | crates/triptorrent-cli/src/lib.rs:917-990 | from a disk that opens, every disk left opens exactly when it holds both files or neither, or other data met a digest |
| ResumeHistory.StrandsExactly | crates/triptorrent-cli/src/lib.rs:964-1058 | one action leaves one file without the other exactly when it found it so or crashed after the first or second write of a fresh start, between removing and renaming the state file, or between publishing and removing it |
| ResumeHistory.StrandedStays | crates/triptorrent-cli/src/lib.rs:924-926 | a disk with one file of the two is refused by every later open and never changes again |
| ResumeHistory.OneSidedExactly | crates/triptorrent-cli/src/lib.rs:916-1058 | in every history, whatever the data, one file is left without the other exactly when that was so at first or one of those crashes has happened |
| ResumeHistory.LockedOutExactly | crates/triptorrent-cli/src/lib.rs:916-1058 | from a disk that opens, a download is locked out exactly when one of those crashes has happened, or other data met a digest |
| ResumeHistory.ChunksNeverLost | crates/triptorrent-cli/src/lib.rs:917-1015 | until a publication a chunk once recorded stays recorded, through every crash that leaves both files |
| ResumeHistory.FirstWriteStrands | crates/triptorrent-cli/src/lib.rs:964-987 | on an empty disk a crash after the first write of a fresh start leaves an empty partial file that no later process opens |
| ResumeHistory.OutputNeverLost | crates/triptorrent-cli/src/lib.rs:1017-1058 | where renames replace files, a published output is never missing in between |
| ResumeHistory.CompletedExactly | crates/triptorrent-cli/src/lib.rs:992-1006 | while it lives, a process marks exactly the chunks it found marked or was given |
| ResumeHistory.ResumedCompletes | crates/triptorrent-cli/src/lib.rs:916-1046 | opened on any disk that opens, given the chunks it lacks in any order and left alone, a download publishes the content and removes both files, or other data met a digest |
| Download.StepInv | crates/triptorrent-cli/src/lib.rs:605-844 | every step of receiver, channel and workers keeps requests, results and chunks in flight matched, and iterations within budget |
| Download.StepProgress | crates/triptorrent-cli/src/lib.rs:605-844 | every step strictly lowers a natural-number measure |
| Download.RunInv | crates/triptorrent-cli/src/lib.rs:761-844 | in every run no internal error and no "no healthy provider" exit is reachable |
| Download.RunBounds | crates/triptorrent-cli/src/lib.rs:761-844 | every run has at most (missing chunks + providers) iterations and a bounded number of steps |
| Download.CountersTell | crates/triptorrent-cli/src/lib.rs:761-844 | in every state of every run a provider's counters are the good and the other results taken from it so far, and the retries are the latter over all providers |
| Download.RunAgrees | crates/triptorrent-cli/src/lib.rs:761-844 | in every state of every run, disk failures that tear a write included, the recorded chunks of the partial file are the content's own, or a chunk taken before was other data under its digest |
| Download.NeverStuck | crates/triptorrent-cli/src/lib.rs:605-844 | until it has ended a download can always take a step without being interrupted |
| Download.DownloadDelivers | crates/triptorrent-cli/src/lib.rs:663-844 | if every missing chunk is held by a provider that answers correctly, an uninterrupted run that cannot go on has every chunk complete and recorded, and the content in the partial file, or a chunk taken was other data under its digest |
| SwarmSession.RunMirrors | crates/triptorrent-cli/src/lib.rs:761-844 | in every state of every run the receiver's file and record are those on the disk of the history that its deliveries and disk failures make |
| SwarmSession.SessionEnds | crates/triptorrent-cli/src/lib.rs:663-759 | a fetch on any disk that opens is a history of the disk; finished, it leaves the content and neither file; ended otherwise, it leaves the output as it was and, unless the disk failed, a disk that opens with the receiver's record; or other data met a digest |
| SwarmSession.SessionDelivers | crates/triptorrent-cli/src/lib.rs:663-844 | if every missing chunk is held by a provider that answers correctly, an uninterrupted fetch of bounded length that cannot go on has published the content and removed both files, or other data met a digest |
| ReceiveSwarm.Receive | crates/triptorrent-cli/src/lib.rs:663-759 | refuses with the first failing check, untouched up to the opening; otherwise it is such a fetch, every step of it one that the environment asked for, and writes exactly the disks of its history in order; it is stopped exactly at the iteration it is told to, and times out only when nobody answers a queued request; if every queued request is answered, every missing chunk is held by a provider that answers correctly, and the caller does not stop it, it publishes the content, or other data met a digest; it succeeds only with a file of the requested length and digest published, reports statistics that add up to every chunk and are, per provider, the good and the other results taken from it, and on failure leaves the output as it was |
| DownloadLoop.Receiver.DownloadChunks | crates/triptorrent-cli/src/lib.rs:761-844 | the loop is a run of the step relation from the state it is called in, its answers exactly those of the environment and in that order, and the disk follows its deliveries write by write; it ends within its iteration bound, never with an internal error, claims success only with every chunk complete, stops exactly at the iteration it is told to, times out only when nobody answers a queued request, and otherwise finishes in every reliable environment |
| DownloadLoop.Receiver.Wait | crates/triptorrent-cli/src/lib.rs:761-844 | takes the answers that the environment gives, one by one, until a result waits and no other is early, or until no running worker with a queued request answers |
| DownloadEnvironment.ReliableFinishes | crates/triptorrent-cli/src/lib.rs:663-844 | if queued requests are always answered and every missing chunk is held by a provider that answers correctly, whatever the others send, a download ends only by finishing or by being stopped |
| DownloadEnvironment.GenuineIsReliable | crates/triptorrent-cli/src/lib.rs:605-661 | workers that answer each request in turn with the content's own chunk are such an environment |
| DownloadLoop.Receiver.AssignAll | crates/triptorrent-cli/src/lib.rs:761-844 | offering work to every slot is a sequence of assign steps |
| DownloadLoop.Receiver.TakeResult | crates/triptorrent-cli/src/lib.rs:761-844 | taking a result is one receive step: a good chunk is stored and recorded, anything else drops its provider |
| RateSchedules.RateSchedule.Reserve | crates/triptorrent-swarm/src/lib.rs:216-227 | short of saturation the delay runs to the start time of the history; an idle schedule never delays; a zero rate or zero bytes is free |
| RateSchedules.StartIsMaximum | crates/triptorrent-swarm/src/lib.rs:204-227 | the j-th start is the maximum over earlier arrivals of arrival plus service queued since |
| RateSchedules.RateRespected | crates/triptorrent-swarm/src/lib.rs:204-227 | bytes started between two starts never exceed rate times elapsed time plus the last reservation |
| XorMetric.SameBucketIsCloser | crates/triptorrent-overlay/src/research.rs:620-638 | a node in the same bucket as the target's closest node is closer to the target and shares a longer prefix with that node |
| XorMetric.BetweenSharesPrefix | crates/triptorrent-overlay/src/research.rs:686-760 | what lies between two nodes in distance shares at least as long a prefix with the closer one |
| RoutingTables.BuildRoutingTables | crates/triptorrent-overlay/src/research.rs:620-638 | every table represents each non-empty bucket, with distinct identifiers it holds exactly the first eight of each, and nothing else about a node changes |
| RoutingTables.FirstAreSmallest | crates/triptorrent-overlay/src/research.rs:620-638 | the kept entries of a sorted bucket are those with fewer than eight smaller ones |
| Lookup.SelectReplicas | crates/triptorrent-overlay/src/research.rs:670-684 | the replicas are the nearest nodes, one per group when diverse, and include the closest node otherwise |
| Lookup.LookupConverged | crates/triptorrent-overlay/src/research.rs:744-760 | converged exactly when the eight nearest known nodes exist and have all been asked |
| Lookup.TableAdvances | crates/triptorrent-overlay/src/research.rs:620-742 | in a clean network every table but the closest node's own has an entry closer to the target with a longer common prefix |
| Lookup.RoundAdvances | crates/triptorrent-overlay/src/research.rs:686-742 | each round the nearest known node's common prefix with the closest node grows |
| Lookup.NotConverged | crates/triptorrent-overlay/src/research.rs:744-760 | the convergence test never stops a clean search early |
| Lookup.RouteLookup | crates/triptorrent-overlay/src/research.rs:686-742 | each round asks the nearest nodes that the starting table and the answers so far name and that have not been asked; it stops at the first round at which a replica has answered, the eight nearest known nodes have all been asked, nobody is left to ask, or 64 rounds of three queries are over, and at no other; success exactly when an answering replica was asked; in a clean network always success, the nearest node known at each round sharing a longer prefix than the one before |
| Lookup.StopsExactly | crates/triptorrent-overlay/src/research.rs:686-760 | with distinct identifiers the round it stops after is the only one on its way at which a search may stop |
| Lookup.SearchDetermined | crates/triptorrent-overlay/src/research.rs:686-742 | with distinct identifiers any two searches that choose and stop by these rules from one start ask the same nodes in the same rounds |
| Lookup.CleanNetworkFinds | crates/triptorrent-overlay/src/research.rs:620-742 | build, place, look up: with distinct identifiers and at least two live honest nodes the lookup succeeds from every start |
| Decimal.AcceptedIsNumeral | crates/triptorrent-interop/src/lib.rs:132-155 | every text the canonical check and the 64-bit parse accept is the decimal numeral of its value |
| Decimal.NumeralIsAccepted | crates/triptorrent-interop/src/lib.rs:132-155 | the numeral of every 64-bit integer is accepted and parses to it |
| Bencode.PrefixFree | crates/triptorrent-interop/src/lib.rs:82-96 | two values whose encodings start the same bytes are the same value |
| BencodeParser.Parser.ParseInteger | crates/triptorrent-interop/src/lib.rs:132-155 | consumes exactly the encoding of the returned 64-bit integer, and fails exactly when none is there |
| BencodeParser.Parser.ParseText | crates/triptorrent-interop/src/lib.rs:157-178 | consumes exactly the encoding of the returned text, and fails exactly when none is there |
| BencodeParser.Parser.ParseNode | crates/triptorrent-interop/src/lib.rs:105-130 | returns the one value there is room for at this place, with a range that is its encoding at every level, and fails exactly when there is none |
| BencodeParser.Parser.ParseList | crates/triptorrent-interop/src/lib.rs:180-188 | consumes the items up to the terminator, and fails exactly when no list that fits is there |
| BencodeParser.Parser.ParseDictionary | crates/triptorrent-interop/src/lib.rs:190-213 | consumes strictly sorted entries up to the terminator, and fails exactly when no dictionary that fits is there |
| BencodeParser.ParseBencode | crates/triptorrent-interop/src/lib.rs:82-96 | succeeds exactly on canonical encodings within the depth, node and size bounds, returns that value, and reports trailing bytes exactly after a complete value |
| Metainfo.FieldIsEntry | crates/triptorrent-interop/src/lib.rs:385-397 | on sorted keys the binary search finds a value exactly when the dictionary holds it under that key |
| Metainfo.FilesFoldIsSum | crates/triptorrent-interop/src/lib.rs:326-355 | the checked running total fails exactly when a file is malformed or the true total exceeds 64 bits |
| Metainfo.TreeLengthIsSum | crates/triptorrent-interop/src/lib.rs:357-376 | the length of a v2 tree is the sum of its files' lengths at any nesting, absent exactly for malformed trees or on overflow |
| Metainfo.ClassifyExactly | crates/triptorrent-interop/src/lib.rs:273-324 | exactly which dictionaries are v1, v2 or hybrid: complete metadata of each form, and one payload size in a hybrid |
| Metainfo.TorrentIdentity | crates/triptorrent-interop/src/lib.rs:273-324 | malformed exactly on non-canonical input; otherwise the aliases are digests of the canonical encoding of the info dictionary and depend on nothing else |
| MerkleRoot.V2FileRoot | crates/triptorrent-interop/src/lib.rs:418-442 | the layer-halving loop ends and equals the recursive root of the perfect tree over block digests padded with zeros; the empty file is an error |
| MerkleRoot.PairedKeepsRoot | crates/triptorrent-interop/src/lib.rs:418-442 | hashing a layer in pairs leaves the root of the tree alone |
| MerkleRoot.LastLayer | crates/triptorrent-interop/src/lib.rs:418-442 | the layers that the loop goes through reach a single digest exactly after as many rounds as the tree is high, and it is the root |
| MerkleRoot.RootBinds | crates/triptorrent-interop/src/lib.rs:418-442 | two different files of one size with one root have, at one and the same block or pair of their trees, two different hashed inputs with one digest |
| Base32.DecodeBase32 | crates/triptorrent-interop/src/lib.rs:591-613 | returns the bits of the symbols in whole bytes, exactly when all symbols are valid and the left-over bits are zero |
| Base32.EncodedDecodes | crates/triptorrent-interop/src/lib.rs:591-613 | decoding undoes the encoder of section 6 of RFC 4648 on whole groups |
| Base32.DecodedEncodes | crates/triptorrent-interop/src/lib.rs:591-613 | every text of whole groups decodes, and encoding gives it back |
| ExactTopic.HexInverse | crates/triptorrent-interop/src/lib.rs:538-562 | on lower-case text hexadecimal encoding and decoding undo each other |
| ExactTopic.Magnet.ParseExactTopic | crates/triptorrent-interop/src/lib.rs:538-562 | records the topic in exactly one list, and changes nothing on an error |
| ExactTopic.BtihExactly | crates/triptorrent-interop/src/lib.rs:538-562 | a v1 hash is recorded exactly from its hexadecimal and its base32 spelling, in any letter case |
| ExactTopic.BtmhExactly | crates/triptorrent-interop/src/lib.rs:538-562 | a v2 hash is recorded exactly from its hexadecimal multihash, in any letter case |
| WireFields.Reader.Take | crates/triptorrent-protocol/src/lib.rs:711-722 | returns the next bytes exactly when there are enough |
| WireFields.Reader.Number | crates/triptorrent-protocol/src/lib.rs:728-739 | returns a number exactly when its big-endian form comes next, and moves past it |
| WireFields.Reader.Blob | crates/triptorrent-protocol/src/lib.rs:740-747 | returns a byte string exactly when its written form, within the bound, comes next |
| WireFields.Reader.Text | crates/triptorrent-protocol/src/lib.rs:748-755 | returns a text exactly when its written form, well-formed UTF-8 within the bound, comes next |
| WireFields.Advance | crates/triptorrent-protocol/src/lib.rs:762-781 | one more item read keeps the partial list a prefix of every list that could be there |
| WireRecords.ReadHeader | crates/triptorrent-protocol/src/lib.rs:691-710 | passes exactly the header of its domain; any other version is reported as unsupported |
| WireRecords.ReadManifest | crates/triptorrent-protocol/src/lib.rs:762-781 | returns a manifest exactly when its written form, within the bounds, comes next |
| WireRecords.ReadChunk | crates/triptorrent-protocol/src/lib.rs:782-788 | returns a chunk exactly when its written form, within the bounds, comes next |
| WireRecords.ReadOffer | crates/triptorrent-protocol/src/lib.rs:241-247 | returns a manifest with availability exactly when its written form comes next |
| WireRecords.ReadAssignment | crates/triptorrent-protocol/src/lib.rs:789-797 | returns a route assignment exactly when its written form, within the bounds, comes next |
| WireRecords.ReadOptional | crates/triptorrent-protocol/src/lib.rs:798-804 | returns an optional assignment exactly when its tagged form comes next |
| WireRecords.WriteManifest | crates/triptorrent-protocol/src/lib.rs:647-659 | appends the written form of the manifest |
| WireRecords.WriteAssignment | crates/triptorrent-protocol/src/lib.rs:665-671 | appends the written form of the assignment, or fails on a text too long |
| WireLists.ReadAssignments | crates/triptorrent-protocol/src/lib.rs:441-452 | returns a list of assignments exactly when that many written forms come next |
| WireLists.ReadPeer | crates/triptorrent-protocol/src/lib.rs:329-360 | returns a peer advertisement exactly when its written form, within the bounds, comes next |
| WireMessages.ValidFits | crates/triptorrent-protocol/src/lib.rs:462-498 | every valid application message fits a record and the reader's bounds |
| WireMessages.LargestSwarmManifest | crates/triptorrent-protocol/src/lib.rs:11-19 | 2,036 is exactly the largest chunk count whose manifest and bitfield fit 65,519 bytes |
| WireMessages.Decode | crates/triptorrent-protocol/src/lib.rs:227-256 | succeeds exactly on the written forms of well-formed application messages and returns that message |
| WireMessages.Encode | crates/triptorrent-protocol/src/lib.rs:176-221 | writes exactly the well-formed messages; the size limit refuses none |
| WireMessages.ValidExactly | crates/triptorrent-protocol/src/lib.rs:462-498 | a message passes validation exactly when its manifest covers its content in 32,768-byte chunks, its bitfield has one bit for each chunk and no other, and its numbers and texts are within their bounds |
| WireMessages.Exchange | crates/triptorrent-protocol/src/lib.rs:176-256 | what one end encodes the other decodes to the same message, and that happens for exactly the well-formed ones |
| WireMessages.ContentIsSendable | crates/triptorrent-protocol/src/lib.rs:462-498 | of every file of at most 2,036 chunks the manifest, every chunk, and every valid bitfield over its chunks can be sent |
| WireRequests.ValidFits | crates/triptorrent-protocol/src/lib.rs:519-565 | every valid request fits a control frame and the reader's bounds |
| WireRequests.DecodeRequest | crates/triptorrent-protocol/src/lib.rs:325-390 | succeeds exactly on the written forms of well-formed requests and returns that request |
| WireRequests.EncodeRequest | crates/triptorrent-protocol/src/lib.rs:262-319 | writes exactly the well-formed requests; the size limit refuses none |
| WireRequests.ValidExactly | crates/triptorrent-protocol/src/lib.rs:519-565 | validation passes exactly the requests whose names, addresses, counts and texts are of the stated form and within their bounds |
| WireResponses.ValidFits | crates/triptorrent-protocol/src/lib.rs:566-585 | every valid response fits a control frame and the reader's bounds |
| WireResponses.DecodeResponse | crates/triptorrent-protocol/src/lib.rs:435-460 | succeeds exactly on the written forms of well-formed responses and returns that response |
| WireResponses.EncodeResponse | crates/triptorrent-protocol/src/lib.rs:396-429 | writes exactly the well-formed responses; the size limit refuses none |
| WireResponses.ValidExactly | crates/triptorrent-protocol/src/lib.rs:566-585 | validation passes exactly the responses whose names, addresses, counts and texts are of the stated form and within their bounds |
| WireResponses.DomainsApart | crates/triptorrent-protocol/src/lib.rs:598-606 | no byte string is a message of two domains |
| RegistryService.Registry.Purge | crates/triptorrent-overlay/src/lib.rs:350-369 | leaves exactly the unexpired leases, and of each live provider exactly the queued entries that are unexpired and go through a live relay; counts exactly what it dropped |
| RegistryService.Registry.RegisterPeer | crates/triptorrent-overlay/src/lib.rs:131-171 | refuses untouched, with the first demand not met, an advertisement under a foreign identifier, with no, too many or repeated contents, or without a transfer capability; otherwise admits exactly those that renew a live lease or find fewer live peers than the limit, and leaves every other lease as a purge does |
| RegistryService.Registry.HeartbeatPeer | crates/triptorrent-overlay/src/lib.rs:175-182 | reports and renews exactly a peer whose lease has not run out; every other lease is left as a purge does |
| RegistryService.Registry.RegisterRelay | crates/triptorrent-overlay/src/lib.rs:189-213 | refuses untouched, with the first demand not met, a relay without a proper name or socket address; otherwise admits exactly those that renew a live lease or find fewer live relays than the limit, and leaves every other lease as a purge does |
| RegistryService.Registry.HeartbeatRelay | crates/triptorrent-overlay/src/lib.rs:217-224 | reports and renews exactly a relay whose lease has not run out; every other lease is left as a purge does |
| RegistryService.Registry.Discover | crates/triptorrent-overlay/src/lib.rs:228-238 | succeeds exactly when the first live provider of the content has room and a relay is live, names both, and adds that one assignment to that one queue |
| RegistryService.Registry.DiscoverProviders | crates/triptorrent-overlay/src/lib.rs:242-279 | answers with one route for each of the first providers, up to the limit, in key order, that are live, serve swarms, have the content and have room, the i-th through relay i modulo the number of live relays; the routes carry the next numbers and each is at the end of its provider's queue; every other queue is as a purge leaves it |
| RegistryService.Registry.QueueAssignment | crates/triptorrent-overlay/src/lib.rs:281-305 | hands out an assignment exactly when the provider has room; its queue grows by it, every other queue stays, and the route carries the next number |
| RegistryService.Registry.PollPeer | crates/triptorrent-overlay/src/lib.rs:309-322 | delivers exactly when the provider is live and its queue holds a usable assignment: the first of those, leaving the rest; renews the lease, and leaves every other queue as a purge does |
| RegistryService.Registry.ReportRelayFailure | crates/triptorrent-overlay/src/lib.rs:325-330 | removes that relay alone, and from every queue exactly the assignments through it, the others keeping their order |
| RegistryService.Registry.HandleRequest | crates/triptorrent-overlay/src/lib.rs:630-685 | a valid request keeps the registry invariant and gets a valid response; for every request the answer and what becomes of leases and queues are stated in terms of those before, polls with the first usable assignment among them |
| RegistryAnswers.PollDoes | crates/triptorrent-overlay/src/lib.rs:309-322 | a poll delivers exactly the first usable assignment of a live provider, if there is one, and keeps the others in order |
| RegistryAnswers.CheckPeerExactly | crates/triptorrent-overlay/src/lib.rs:131-159 | exactly which advertisements registration accepts, and the first unmet demand for every other |
| RegistryAnswers.CheckRelayExactly | crates/triptorrent-overlay/src/lib.rs:189-200 | and the same for relays |
| RegistryAnswers.QueueAllDoes | crates/triptorrent-overlay/src/lib.rs:242-305 | exactly the providers with room get a route, in order, through the relays in turn and under the numbers that follow |
| RegistryAnswers.HandleDoes | crates/triptorrent-overlay/src/lib.rs:630-685 | the answer to every request, and its effect, in terms of the state before |
| RegistryInvariant.PurgedInv | crates/triptorrent-overlay/src/lib.rs:350-369 | a purge keeps the registry invariant: key order, limits, authentic peers, and queues naming only registered peers and relays |
| RegistryInvariant.DiscoverExactly | crates/triptorrent-overlay/src/lib.rs:228-238 | discovery succeeds exactly when the first live provider of the content has room and a relay is live, and it names both |
| RegistryInvariant.SwarmProvidersArePeers | crates/triptorrent-overlay/src/lib.rs:242-279 | the providers found are registered swarm peers with the content, in key order without repetition |
| RegistryInvariant.SwarmProvidersAreAll | crates/triptorrent-overlay/src/lib.rs:242-279 | unless the limit was reached, every live swarm peer with the content is found |
| RegistryInvariant.DiscoverProvidersInv | crates/triptorrent-overlay/src/lib.rs:242-279 | one discovery never repeats a provider, stays within its limit, and every route in it can be sent |
| RegistryInvariant.HandleInv | crates/triptorrent-overlay/src/lib.rs:630-685 | every decoded request keeps the registry invariant and its response passes validation |
| RegistryRuns.RunInv | crates/triptorrent-overlay/src/lib.rs:587-685 | the invariant holds after every run and every response of every run passes validation |
| RegistrySweeps.PurgeTwice | crates/triptorrent-overlay/src/lib.rs:350-369 | a purge makes every earlier purge redundant, counters included |
| RegistrySweeps.SweepsInvisible | crates/triptorrent-overlay/src/lib.rs:131-369 | under non-decreasing time, taking every extra purge out of a run leaves every answer as it was |
| RegistryLeases.LiveExactlyWhileRenewed | crates/triptorrent-overlay/src/lib.rs:131-182 | under non-decreasing time a peer is found exactly while the time is before its last successful renewal plus the lease, an addition that saturates |
| RegistryLeases.RelayLiveExactlyWhileRenewed | crates/triptorrent-overlay/src/lib.rs:189-330 | and a relay exactly while the time is before its last successful renewal since it was last reported failed, plus the lease |
| RegistryRoutes.CreatedDistinct | crates/triptorrent-overlay/src/lib.rs:281-305 | up to 2^64 assignments, no two share a route name |
| RegistryRoutes.RoutesDelivered | crates/triptorrent-overlay/src/lib.rs:242-369 | in every run created = polled + expired + dropped by failure reports + queued, each provider's deliveries are in creation order, and none is delivered twice |
| RegistryConnection.HandleConnection | crates/triptorrent-overlay/src/lib.rs:587-615 | a frame that decodes is answered with a frame that decodes; any other frame leaves the registry untouched |
| Relay.RelayState.PruneNow | crates/triptorrent-relay/src/lib.rs:90-95 | leaves exactly the routes that have waited less than the timeout, as they were, and counts the others |
| Relay.RelayState.RegisterStream | crates/triptorrent-relay/src/lib.rs:97-150 | refuses exactly remembered routes, new routes while as many as allowed still wait, and repeated roles; pairs exactly when the other role waits, joining those two streams, and then remembers the route as the latest; otherwise the stream waits; every other route is left as a prune does |
| Relay.RunKeeps | crates/triptorrent-relay/src/lib.rs:80-150 | in every run pending routes hold exactly one endpoint, pending and remembered routes are disjoint and bounded, the remembered ones are the latest pairs, and a route pairs again only after more other pairs than the relay remembers |
| Relay.StreamsConserved | crates/triptorrent-relay/src/lib.rs:80-150 | every accepted stream is in exactly one place, so accepted = 2 x pairs + pending + expired |
| Relay.PairsAreSound | crates/triptorrent-relay/src/lib.rs:97-150 | both ends of every pair were accepted for its route, one in each role |
| TransferStatus.StepInv | crates/triptorrent-node/src/lib.rs:1172-1378 | every step of workers, pause, resume, shutdown and restart, overlapping or not, keeps the downloads map standing for one unfinished fetch and `pausing` for some unwritten outcome |
| TransferStatus.SingleStep | crates/triptorrent-node/src/lib.rs:1172-1378 | if no resume passes its check while another start is under way, there is at most one start or worker, and while there is one the row says nothing final |
| TransferStatus.PausingHasWorker | crates/triptorrent-node/src/lib.rs:1234-1328 | in every run of a live process a row is `pausing` only while some worker has yet to write its outcome |
| TransferStatus.PauseOverwritesNothing | crates/triptorrent-node/src/lib.rs:1172-1328 | if resumes do not overlap, no pause writes over an outcome and no start finds another worker registered |
| TransferStatus.PausedSurvives | crates/triptorrent-node/src/lib.rs:702-838 | with no start or worker left, a paused row keeps status and progress through reports, shutdowns and restarts until an explicit resume |
| TransferStatus.RecordedPauseSurvives | crates/triptorrent-node/src/lib.rs:702-1328 | if resumes do not overlap, that holds from the write that records the pause |
| TransferStatus.EndedStays | crates/triptorrent-node/src/lib.rs:702-838 | if resumes do not overlap, a completed or failed row never changes again |
| TransferStatus.EndedExactly | crates/triptorrent-node/src/lib.rs:1172-1352 | however calls overlap, a completed or failed row keeps its status in every continuation exactly when no start is under way, no pause can still be accepted, and whoever has yet to write can only write what it says |
| TransferStatus.EndedCanRunAgain | crates/triptorrent-node/src/lib.rs:1172-1352 | from the start of a download, two overlapping resumes can leave `running` over `completed` |
| TransferStatus.FlagExactly | crates/triptorrent-node/src/lib.rs:1293-1328 | in every run a worker's control word asks for a pause exactly when the last thing that reached it was a pause |
| TransferStatus.PausedExactly | crates/triptorrent-node/src/lib.rs:1234-1328 | in every run a worker's write leaves the row `paused` exactly when its fetch stopped short and the last thing it was told before leaving the map was to pause |
| TransferStatus.PauseHonoured | crates/triptorrent-node/src/lib.rs:1293-1378 | if resumes do not overlap, from a pause that reaches a worker to the end of that worker, the row then says `paused` exactly when the worker got to write before the process ended, its fetch had stopped short, and no shutdown reached it after the last pause |
| TransferStatus.PauseReached | crates/triptorrent-node/src/lib.rs:1172-1328 | a download that has just started can be brought to an accepted pause |
| TransferStatus.PauseCanBeInterrupted | crates/triptorrent-node/src/lib.rs:1365-1378 | from every accepted pause a shutdown before the worker leaves ends in `interrupted` |
| TransferStatus.InterruptedRestarts | crates/triptorrent-node/src/lib.rs:1032-1067 | the next start runs an interrupted transfer again without a resume |

## Where the code and its documentation differ

- Line 78 of the repository's own `README.md` says that interrupted downloads keep both resume files and
  that a later fetch reuses them. The code does so except after the crashes of
  `ResumeHistory.StrandsExactly`; after those it refuses for good.
- Line 28 of `docs/M7_DESKTOP_CLIENT.md` says that a pause persists `paused`. The code does so exactly
  under the condition of `TransferStatus.PauseHonoured`; a shutdown in between leaves `interrupted`,
  which the next start runs again.

## Left out

- TCP framing, socket timeouts, thread spawning and connection counters: input and output around the modelled steps.
- Noise sessions and key generation: thin wrappers over a library.
- SQLite text, schema migration and failures of database writes: foreign calls; a database write that fails is not a step.
- Progress reports and worker shutdown inside `ReceiveSwarm.Receive`: they cannot fail there and change no state; the reports themselves are `Content.ReportVerifiedProgress`.
- Loss of written bytes that were never flushed: the disk is the partial file, the state file and the output, and a crash falls between writes.
- HTTP requests, configuration, the desktop client and the command line: plumbing with shallow properties.
- Traffic analysis, Monte Carlo summaries and rendered metrics: fixed experiments.
- `parse_magnet` beyond exact topics, percent decoding and path components: they split text at fixed characters and decide nothing about identity.
- Socket-address syntax and the digest that names a public key: parameters of the codec and the registry.
- The cap on concurrent transfers: it is checked and incremented separately, so it is not an invariant.
- Panics inside workers.
- Hexadecimal rendering of torrent identities: the model returns the digests themselves.
- Registry and relay counters are unbounded numbers.
- BencodeParser.ParseBencode: the position inside an `Invalid` or `UnsortedDictionary` error is computed but not specified.
- WireMessages.Decode: of the error values only the size and version errors are specified; every other refusal is specified as a refusal.
- WireFields.Reader.Take: the overflow of offset plus length is not modelled, because lengths are at most 32 bits wide.

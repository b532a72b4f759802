# Verified models of go-susi's algorithms and protocols

go-susi boots and installs machines over the network. Besides passing messages on, it contains a replicated job
database, a query translator, a package list engine, an audit engine, a TFTP server and several smaller state
machines. These modules model the algorithms in the form in which the source has them: objects with fields that
methods update, loops that change variables, byte offsets into buffers. Each method is proved against a function of
its inputs or of the old state, and what the system promises is proved about those functions, for all inputs and all
runs.

`dafny verify dfyconfig.toml` checks everything.

## The parts

**Replicated jobs** (`jobs`, `jobserver`, `foreign`, `views`, `soundness`, `broadcast`, `followers`, `replication`,
`system`, `launch`, `requestmeaning`, `settling`). One goroutine takes requests from a queue, edits the job table and
emits messages; some handlers queue further requests while they run. A peer replays the messages in order. A *view* is
what a table shows of one owner's jobs, keyed by the id that the owner gave them. The system consists of an owner, its
outgoing queue, a connection that may lose messages, the messages that the peer has read but not yet handled, and the
peer with a request queue and jobs of its own. *On the way to the owner's jobs* means that applying everything in
transit to the peer's view gives the owner's view. Fields agree if they are equal, except that a replica need not show
that a job is being forwarded or groomed.

**Query translation** (`clauses`, `exactness`, `inexactness`, `givenorder`). sibridge turns a list of machine and job
descriptors, a disjunction of conjunctions, into a conjunction of clauses by recursion over two sets that are
backtracked. Clauses never lose a described row, but pruning can let others in. The lists that are translated exactly
are characterized, both for the order in which they are given and for every order.

**Package lists** (`bits`, `bytesearch`, `codec`, `packagelist`, `pathorder`, `merging`, `packagemerge`,
`packagesfile`, `stanzas`, `packagemeaning`). Lines start with eight raw bytes, so a line's bytes can hold newlines
and bars. Lines are compared by walking over raw bytes with backward seeks, sorted through their offsets, merged, and
read from Packages files through a buffer that is compacted while slices into it are still in use. Bytes are
characters below 256.

**Audits** (`proptree`, `auditscan`, `auditdocument`, `auditfile`, `auditrows`, `auditmeaning`, `aggregate`).
Requested column names form a radix tree, which drives a byte scanner over an audit file; the rows go to a streaming
group-by with count-distinct.

**TFTP** (`tftp`, `tftplimit`, `tftpworld`, `tftpserver`, `tftpcache`). The transfer protocol of RFC 1350 with the
option negotiation of RFC 2347, RFC 2348 and RFC 2349 over a network that loses, repeats and reorders packets; the
receiver follows sections 2 and 6 of RFC 1350. The server's loops are proved to act as the protocol's server, and to
succeed exactly if the world outside acknowledges every packet. The file cache counts users and delayed releases.

**Further state machines** (`limiter`, `fai`, `faicache`, `faimeaning`, `registration`, `templaterules`,
`templatematch`, `templatemeaning`). The rate limiter, the inheritance of FAI classes along releases with seven types
in the bits of one word, the registration loop, and the rules that choose a template for a system.

## What the proofs found

- A local edit that marks jobs as forwarded or groomed is not announced to peers. If it changes another field as
  well, that change is lost until the next full sync. `ReplicatedSystem.EditFollowedIffReplicable` gives the exact
  condition for one edit.
- The comment before `generate_clauses` promises a translation to conjunctive normal form. It is exact only for some
  lists: with two machines and two job types, fully combined, the second machine is selected with every job type.
- The comparison of package lines is an order only because there are three architectures. With a further one between
  amd64 and i386, such as `armhf`, it is not transitive.
- A TFTP transfer of more blocks than there are ids (one less if options were negotiated) can finish successfully
  at the server although the receiver has not got everything.
- `compare` and the scans for line ends rely on list data ending with a newline.
- A Packages file line is kept only if the bytes kept so far in its stanza and the line fit the buffer. The buffer
  must not be full when the file ends either.
- In the regular expression of a template rule, a run of white space counts as one space, and white space right
  behind the opening slash is dropped.
- The lookup in `ldap2fai.php` looks for the state `removed`, the cache in `faidb.go` for `remove`. They disagree about
  a class exactly if the object that decides has the second mark without the first
  (`FaiCache.CacheAgreesIffNotMisread`).
- An empty tag for a requested column is overlooked if another requested name begins with the tag, so that a global
  value such as the MAC address stays (`AuditRows.EmptyTagOverlooked`).

## Model

| member | source | states |
|---|---|---|
| `JobServers.JobServer.JobAddLocal` | go-susi/db/jobdb.go:492-523 | takes a new id, stamps it on the job as its own and original id, and queues the addition |
| `JobServers.JobServer.JobsRemoveLocal` | go-susi/db/jobdb.go:537-566 | queues a removal and touches nothing else |
| `JobServers.JobServer.JobsModifyLocal` | go-susi/db/jobdb.go:590-684 | an update to done is queued as a removal that stops periodic jobs if periodic is given and empty or none; any other as an edit |
| `JobServers.JobServer.JobsRemoveForeign` | go-susi/db/jobdb.go:689-695 | queues a removal without announcement |
| `JobServers.JobServer.JobsAddOrModifyForeign` | go-susi/db/jobdb.go:709-755 | an answer with status done is queued as a removal, any other as addition or modification |
| `JobServers.JobServer.JobsSyncAll` | go-susi/db/jobdb.go:807-857 | queues a full sync for one target |
| `JobServers.JobServer.AddJob` | go-susi/db/jobdb.go:496-517 | the table gains the job with its name filled in and all peers are sent exactly that job |
| `JobServers.JobServer.DeleteJobs` | go-susi/db/jobdb.go:538-564 | the selected rows leave the table; each is put into the actions and the message as done, in order, and no message is sent without rows |
| `JobServers.JobServer.EditAll` | go-susi/db/jobdb.go:605-671 | the loop over the selected rows: every row is replaced by its edited version, launches queue the removal of other running jobs of the machine, and the answers are collected unless the edit is an internal one; `Settling.EditSettles` says what comes of it |
| `JobServers.JobServer.ModifyJobs` | go-susi/db/jobdb.go:600-681 | the whole handler equals the specified edit: table, queued requests, actions and outgoing message, whose meaning row by row is `RequestMeaning.ModifyMeans` and `Settling.EditSettles` |
| `JobServers.JobServer.AddOrModifyJobs` | go-susi/db/jobdb.go:715-752 | rows found get the updatable fields of the answer; otherwise the answer becomes a row with a new id and the sender's id as original id |
| `JobServers.JobServer.SendAll` | go-susi/db/jobdb.go:816-854 | the target alone is sent all local jobs, even if there are none |
| `JobServers.JobServer.HandleRequest` | go-susi/db/jobdb.go:206-214 | one turn of the goroutine performs exactly the specified step of the oldest request |
| `RequestMeaning.ModifyMeans` | go-susi/db/jobdb.go:600-681 | executing an edit: the new rows are exactly the unselected ones and the selected ones with the editable fields of the update, launch turning into processing; exactly the selected rows become actions if the update launches or wakes them; exactly they are announced to all peers unless the progress is forward or groom |
| `RequestMeaning.RemoveMeans` | go-susi/db/jobdb.go:538-564 | executing a removal: exactly the unselected rows stay; exactly the selected ones become actions and are announced, with status done and, to stop periodic jobs, with periodic none |
| `RequestMeaning.DoneRemoves` | go-susi/db/jobdb.go:590-598 | which updates become removals, and which of them stop periodic jobs |
| `RequestMeaning.RemoveForeignMeans` | go-susi/db/jobdb.go:689-695 | exactly the rows of that origin leave, without action or message |
| `RequestMeaning.AddOrModifyMeans` | go-susi/db/jobdb.go:715-752 | rows of that origin take the answer's editable fields; if there is none, one row with a new id, the sender's id and the answer's fields is added; no action, no message |
| `RequestMeaning.AddMeans` | go-susi/db/jobdb.go:496-517 | the new row has the job's ids and fields and a name, and all peers are told of it alone |
| `RequestMeaning.SyncMeans` | go-susi/db/jobdb.go:816-854 | the target is shown every row of this server and no other |
| `Settling.EditSettles` | go-susi/db/jobdb.go:600-681 | once an edit and everything it queued are executed, a row is in the table if and only if it is an unselected row or the edited version of a selected one and does not have to give way to another job that the edit launched |
| `Settling.LaunchDisplaces` | go-susi/db/jobdb.go:621-638 | a row that the edit did not select is gone if and only if the edit is a launch and the row is an install or update job of this server in processing with the macaddress of a selected install or update job; every other such row is there unchanged |
| `ForeignUpdates.ForeignJobUpdates` | go-susi/message/foreign_job_updates.go:41-186 | the receiver queues, for every item up to the first illegal address, exactly the requests of the three ownership cases, after clearing the sender's jobs for sync=all; it returns the peers to be asked for their jobs; what the requests of one answer do to the table is `Settling.OwnJobChanges`, `OwnJobCancelled`, `SenderJobChanges` and `SenderJobDone` |
| `ForeignUpdates.MessageIsItems` | go-susi/message/foreign_job_updates.go:62-180 | if all addresses are legal, handling a message is handling its items one after the other |
| `ForeignUpdates.ThirdPartiesAreAsked` | go-susi/message/foreign_job_updates.go:164-185 | a third party is asked for its jobs exactly if an item speaks of it, and nothing is changed on hearsay |
| `Settling.OwnJobChanges` | go-susi/message/foreign_job_updates.go:103-133 | executing what a peer's answer about a job of this server queues: exactly the meant rows, the one with that id for a go-susi, those of that job type and machine for a gosa-si, take the answer's editable fields; other rows stay, but for those that give way to a launch |
| `Settling.OwnJobCancelled` | go-susi/message/foreign_job_updates.go:123-133 | if the answer says done, exactly the meant rows leave, and act as done with periodic none |
| `Settling.SenderJobChanges` | go-susi/message/foreign_job_updates.go:136-161 | executing what an answer about the sender's own job queues: rows of that origin take its editable fields, or one row is added; of this server's rows exactly the install and update jobs processing on the same machine leave, as forwarded, done and not periodic, if the answer says that such a job is processing |
| `Settling.SenderJobDone` | go-susi/message/foreign_job_updates.go:153-161 | if the sender's job is done, exactly the rows of that origin leave, without action or message |
| `Settling.SenderCleared` | go-susi/message/foreign_job_updates.go:52-56 | the first step after a sync=all message removes exactly the rows of its sender; what is left to do is what the message asks for without sync=all |
| `Settling.IllegalAddressStops` | go-susi/message/foreign_job_updates.go:94-97 | from an answer with an illegal address on, a message is ignored, and then nobody is asked for jobs |
| `Settling.PeersAsked` | go-susi/message/foreign_job_updates.go:121-183 | one answer lets the sender be asked if it is a gosa-si that changes a job of this server, a third party if the answer is about its job, and otherwise nobody |
| `Soundness.SoundExecuteNext` | go-susi/db/jobdb.go:492-755 | ids stay pairwise distinct and below the counter, jobs of the server keep original id = id, foreign rows keep distinct origins, and all queued requests, including those queued on the way, stay well formed |
| `Broadcasts.ExecuteView` | go-susi/db/jobdb.go:689-755 | what a request of the receiver does to its table is, for the view of one owner, exactly the specified change of a map, wherever the rows are |
| `Broadcasts.MergeCatchesUp` | go-susi/db/jobdb.go:709-725 | a replica that agrees with a job agrees again after any edit whose result it is sent |
| `Followers.FollowSync` | go-susi/db/jobdb.go:847-854 | replaying the answers of a full sync from nothing rebuilds the sender's view |
| `Replication.OwnerStep` | go-susi/db/jobdb.go:492-755 | for every request, replaying what its handler emitted turns a view that agrees with the table before into one that agrees with the table after |
| `Replication.OwnerSyncs` | go-susi/db/jobdb.go:807-857 | replaying a full sync gives exactly the owner's view, whatever the replica held |
| `ReplicatedSystem.RunIsSound` | go-susi/db/jobdb.go:191-205 | in every run of owner, network and peer, both tables keep distinct ids below their counters and everything in transit stems from the owner |
| `ReplicatedSystem.RunAgrees` | go-susi/db/jobdb.go:191-205 | once the peer is on the way to the owner's jobs, it stays so through every run in which only messages are lost that a later full sync in transit covers |
| `ReplicatedSystem.SyncForgets` | go-susi/message/foreign_job_updates.go:52-56 | behind a full sync, what came earlier does not matter |
| `ReplicatedSystem.RunAgreesAfterSync` | go-susi/message/peer_connection.go:376-399 | executing a full sync puts the peer on the way to the owner's jobs, whatever it held and whatever was lost before, and later updates keep it so |
| `ReplicatedSystem.DrainedMirrors` | go-susi/db/jobdb.go:200-205 | with everything delivered and executed, the peer's rows for the owner and the owner's jobs mirror each other one to one: original id = id, and fields that agree |
| `ReplicatedSystem.FreshServersAgree` | go-susi/db/jobdb.go:140-180 | two servers with empty tables satisfy the invariants that runs start from |
| `ReplicatedSystem.EditFollowedIffReplicable` | go-susi/db/jobdb.go:607-649 | an edit keeps every agreeing replica in agreement if and only if it is announced or touches nothing but the progress |
| `ReplicatedSystem.EditLost` | go-susi/db/jobdb.go:645-649 | an edit to forward or groom that changes another field leaves a replica with the old value |
| `Launching.RunningAfterEdit` | go-susi/db/jobdb.go:617-663 | a job that is being processed after an edit was so before, or the edit launched it |
| `Launching.RunIsExclusive` | go-susi/db/jobdb.go:617-638 | in every run in which jobs become processing by launch only, of two install or update jobs processing for one machine, one is matched by a queued removal |
| `Launching.DrainedRunsOne` | go-susi/db/jobdb.go:621-638 | with the request queue drained, at most one of them remains |
| `QueryClauses.Generator.Generate` | go-susi/main/sibridge.go:1772-1825 | appends exactly the specified clauses and leaves both backtracking sets as they were |
| `QueryClauses.DescribedAccepted` | go-susi/main/sibridge.go:1772-1825 | for every list and every state of the sets, a row that some descriptor selects passes every clause |
| `QueryExactness.EverythingAcceptsAll` | go-susi/main/sibridge.go:1788-1791 | a list with a descriptor for everything gives no clause at all |
| `QueryExactness.TranslatableIsExact` | go-susi/main/sibridge.go:1772-1825 | translatable lists select exactly the described rows |
| `QueryExactness.TranslatableSelects` | go-susi/main/sibridge.go:1772-1825 | for such lists a row passes every clause, by its MAC address or by a job type, written with trigger_action_ in front but for send_user_msg, exactly if some descriptor asks for its machine, or any, and for its job type, or any |
| `QueryGivenOrder.RejectedIffClean` | go-susi/main/sibridge.go:1772-1825 | for every list, order and state of the sets, some clause rejects a row if and only if one pass from the end of the list finds no clash and the sets hold nothing that must be avoided |
| `QueryGivenOrder.ExactIffClashes` | go-susi/main/sibridge.go:1772-1825 | a list is translated exactly in its given order if and only if it is not empty and that pass clashes for described rows only |
| `QueryGivenOrder.ExactIffRowsOf` | go-susi/main/sibridge.go:1772-1825 | the finitely many rows made of the machines and job types of the list and one new one of each decide whether the list is exact |
| `QueryGivenOrder.PairThenMachineIsExact` | go-susi/main/sibridge.go:1797-1822 | a pair in front of its machine is translated exactly, behind it it is not |
| `QueryInexactness.ExactIffTranslatable` | go-susi/main/sibridge.go:1772-1825 | a list is translated exactly in every order of its descriptors if and only if it is translatable, a condition on its pairs, machines and job types that can be read off the list |
| `QueryInexactness.SimpleListsAreExact` | go-susi/main/sibridge.go:1827-1847 | no machine named twice and no pair's job type named alone suffices, in every order |
| `QueryInexactness.CrossProductIsInexact` | go-susi/main/sibridge.go:1797-1810 | (a,t), (a,u), (b,t), (b,u) is not translated exactly: b is selected with other job types |
| `QueryInexactness.ThreePairsAreInexact` | go-susi/main/sibridge.go:1797-1810 | (a,t), (a,u), (b,t) is not translated exactly |
| `PackageLines.StorableIffRoundTrip` | go-susi/fai-helpers/debdb.go:642-705 | an entry reads back with all five fields, whatever bytes follow it and whatever bytes its bitmap has, if and only if no field contains its own end mark |
| `PackageMeaning.BytesMean` | go-susi/fai-helpers/debdb.go:646-650 | byte i of a stored bitmap holds its bits 8i to 8i+7 |
| `PackageLines.ParseExtends` | go-susi/fai-helpers/debdb.go:681-705 | what follows a complete entry does not change how it is read |
| `PackageLists.ChopJoined` | go-susi/fai-helpers/debdb.go:394-420 | writing lines and chopping the result gives the same sequence of lines, although bitmaps may contain newlines |
| `PackageLists.JoinedChop` | go-susi/fai-helpers/debdb.go:411-417 | whatever data can be chopped, chopping loses nothing and gives lines that can be written again |
| `PackageLists.ParseInPlace` | go-susi/fai-helpers/debdb.go:681-705 | a line that holds a whole entry is read inside list data as on its own |
| `PackageLists.PackageList.Append` | go-susi/fai-helpers/debdb.go:642-669 | the data grows by the line and the offsets by its start; the earlier lines stay |
| `PackageLists.PackageList.Get` | go-susi/fai-helpers/debdb.go:672-705 | the index loops read exactly the entry at the offset, or zero values behind the last one |
| `PackageLists.PackageList.WriteTo` | go-susi/fai-helpers/debdb.go:712-728 | writes the lines in their current order |
| `PackageLists.PackageList.AppendRaw` | go-susi/fai-helpers/debdb.go:394-420 | appends the lines that chopping the data gives, completes a last line without newline, leaves the list alone if reading fails, and says when the index leaves the data |
| `PackageLists.ReadEntry` | go-susi/fai-helpers/debdb.go:681-705 | the scans for the end marks compute the parsed entry |
| `PackageLists.OpenMapped` | go-susi/fai-helpers/debdb.go:208-227 | a mapped cache file gives the lines that chopping gives; an unterminated one counts as empty |
| `PathOrder.Compare` | go-susi/fai-helpers/debdb.go:306-375 | the loop with backward seeks stays in bounds, terminates, and computes the specified comparison of raw data |
| `PathOrder.SkipArch` | go-susi/fai-helpers/debdb.go:311-337 | when the difference of amd64 and i386 is skipped |
| `PathOrder.ComparedIsOrder` | go-susi/fai-helpers/debdb.go:306-375 | on well-formed lines, whatever data follows them, the result is the lexicographic order of file name, pool path and section, with i386 and amd64 identified except for kernels |
| `PackageMeaning.LinesCompare` | go-susi/fai-helpers/debdb.go:306-375 | the comparison of two lines is less, greater or a tie exactly if file name, directory and section, compared byte by byte in this order, are so, i386 being read as amd64 if they are merged and the amd64 file is no kernel |
| `PathOrder.OrderIsTotalPreorder` | go-susi/fai-helpers/debdb.go:306-375 | that order is a total preorder: comparing the other way round flips it, it is transitive in all cases, and lines tie exactly if their keys are the same |
| `PathOrder.OtherArchBreaksOrder` | go-susi/fai-helpers/debdb.go:129 | with any further architecture whose name lies between amd64 and i386, amd64 comes before it and it comes before i386 although these two tie |
| `PathOrder.ArmhfIsBetween` | go-susi/fai-helpers/debdb.go:129 | armhf is such an architecture |
| `Merging.PreferredIsHigher` | go-susi/fai-helpers/debdb.go:598-609 | of two template fields the one of higher level is kept, in the order ? < D < empty < base64 |
| `Merging.MergeCombines` | go-susi/fai-helpers/debdb.go:563-635 | for every key, the merged list holds what the rules make of the two lists' lines: OR of bitmaps and preferred templates, a single line of the first list as it is, one of the second only if it is wanted and its masked bitmap is not zero |
| `PackageMeaning.MergeMeans` | go-susi/fai-helpers/debdb.go:563-635 | for every key: if both lists have it, the package is the amd64 one where they are merged and either list has it, otherwise the first list's, the repositories are those of the first list and the unmasked ones of the second, the description is the first list's, and templates give way in the order ?, one letter, none, longer; if only the first list has it the line stays; a line of the second alone comes with its unmasked repositories, if any and if allowed |
| `Merging.MergeAscends` | go-susi/fai-helpers/debdb.go:563-635 | merging sorted lists with distinct keys gives a sorted list with distinct keys |
| `Merging.MergedBits` | go-susi/fai-helpers/debdb.go:1265-1316 | after folding many lists, a repository has a key if and only if some list says so |
| `Merging.MergedLevel` | go-susi/fai-helpers/debdb.go:1265-1316 | after folding many lists, a key's templates reach a level if and only if some list's do |
| `Merging.MergeOrderIrrelevant` | go-susi/fai-helpers/debdb.go:1265-1316 | bitmaps and template levels depend only on which lists there are, not on their order or repetition |
| `PackageMerge.ItemReads` | go-susi/fai-helpers/debdb.go:681-705 | an entry that may be merged reads back from anywhere in a list's data |
| `PackageMerge.ItemsCompare` | go-susi/fai-helpers/debdb.go:289-296 | comparing raw data at two offsets compares the packages that the lines describe |
| `PackageMerge.Sort` | go-susi/fai-helpers/debdb.go:384-387 | afterwards the offsets list the same lines, in order |
| `PackageMerge.Unite` | go-susi/fai-helpers/debdb.go:590-611 | the line for a key that both lists have; `PackageMeaning.MergeMeans` says what it holds |
| `PackageMerge.MergeLine` | go-susi/fai-helpers/debdb.go:572-615 | one round of the merge loop appends what the specified merge has there |
| `PackageMerge.AppendMerge` | go-susi/fai-helpers/debdb.go:563-635 | sorts both lists, a rearrangement of their lines, and appends exactly the specified merge of the sorted lists, which holds for every key what `PackageMeaning.MergeMeans` says |
| `PackageMerge.SortedDistinctAscends` | go-susi/fai-helpers/debdb.go:563-571 | sorted lines with distinct keys are what the merge theorems need |
| `PackagesFiles.Scanner.Fill` | go-susi/fai-helpers/debdb.go:479-491 | a read adds the next bytes behind the unread ones and leaves all slices alone |
| `PackagesFiles.Scanner.MoveDown` | go-susi/fai-helpers/debdb.go:540-541 | compaction moves the unread bytes down and leaves everything in front of them |
| `PackagesFiles.Scanner.FinishPackage` | go-susi/fai-helpers/debdb.go:500-516 | the blank line appends the line made of the bytes that the slices still hold, and frees the buffer; `Stanzas.FileRecordsMean` says what the record holds |
| `PackagesFiles.Scanner.TakeLine` | go-susi/fai-helpers/debdb.go:498-542 | handling a line inside the buffer, compaction included, is one specified step on the line's text |
| `PackagesFiles.AppendPackages` | go-susi/fai-helpers/debdb.go:462-547 | however reads split the file, the list gains exactly the records that the whole text specifies, field by field those of `Stanzas.FileRecordsMean`, and the same problem is reported; if a read fails, the list has the first of these records |
| `Stanzas.AcceptableRuns` | go-susi/fai-helpers/debdb.go:493-543 | a stanza whose lines fit the buffer and whose path names a file becomes the record of its last path, section and description |
| `Stanzas.UnacceptableRuns` | go-susi/fai-helpers/debdb.go:480-543 | any other stanza ends the reading with a problem and nothing appended for it |
| `Stanzas.FileReads` | go-susi/fai-helpers/debdb.go:462-547 | a file is read to its end if and only if all its stanzas are acceptable, and then gives each stanza's record in order |
| `Stanzas.AcceptableMeans` | go-susi/fai-helpers/debdb.go:493-510 | a stanza is taken exactly if its lines fit the buffers and its last Filename has a slash that is not its last character |
| `Stanzas.FileRecordsMean` | go-susi/fai-helpers/debdb.go:493-543 | record by record of a file read to its end: the repository's bitmap, the last Filename, the last Section or utils if there is none or it is empty, the encoding of the last Description or of "description missing" if that is empty, and templates D exactly if a line that is no field mentions both Depends: and debconf, else ? |
| `PropTree.Insert` | go-susi/db/audit.go:591-632 | inserting a name keeps the tree valid and no deeper than it has to be, adds the name with its index unless it is there, and keeps every other name |
| `PropTree.MakePropTree` | go-susi/db/audit.go:591-632 | the tree is valid for the table of first positions of the storable names, and inner nodes are shared by two names |
| `PropTree.IndexOfIsTable` | go-susi/db/audit.go:561-589 | in a valid tree every lookup gives the table's index, or -1 for any other name |
| `PropTree.InnerIsUnmarked` | go-susi/db/audit.go:534-539 | inner nodes lie in front of every end mark, so named nodes have no children below them |
| `PropTree.LongerIsDeep` | go-susi/db/audit.go:605-627 | a tag that another name begins with is told apart by its end mark only |
| `PropTree.OthersAreShort` | go-susi/db/audit.go:605-627 | any other tag is reached before its end mark |
| `PropTree.TreeFindsFirst` | go-susi/db/audit.go:561-632 | the lookup of a legal name gives its first position in the list; illegal and missing names give -1 |
| `PropTree.LookUp` | go-susi/db/audit.go:561-589 | the lookup loop stays in bounds and computes the specified lookup |
| `AuditFile.ReadElement` | go-susi/db/audit.go:473-511 | the byte loops for one element compute the specified position and row, or that the data ends too early |
| `AuditFile.ReadEntry` | go-susi/db/audit.go:448-512 | an entry that has a plan is read to the plan's row and to the position behind the entry, and every entry makes progress |
| `AuditFile.AuditScanFile` | go-susi/db/audit.go:428-514 | on a document the callback gets one row for each entry, in order; on any data the scan stays in bounds and ends |
| `AuditDocument.TakesAny` | go-susi/db/audit.go:473-511 | one element, requested or not, with or without value, changes the row as it should and the scan goes on behind it; an empty tag is seen if and only if no other requested name begins with it |
| `AuditDocument.DocumentPlan` | go-susi/db/audit.go:428-514 | the elements of a printed entry are found one by one, whatever white space is between them |
| `AuditRows.DocumentIsFile` | go-susi/db/audit.go:428-514 | entries with any tags and any white space, values without <, and enough text behind them are a document that the scan reads entry by entry |
| `AuditRows.RowMeans` | go-susi/db/audit.go:473-511 | a requested column has the value of its last element that is seen, and otherwise keeps what it had |
| `AuditRows.OnlyValue` | go-susi/db/audit.go:473-511 | if a tag occurs once, its column has its value, or is empty for an empty tag that is seen, or keeps what it had |
| `AuditRows.EmptyTagOverlooked` | go-susi/db/audit.go:476-491 | an empty tag clears its column if only its own name is requested, and keeps the value if a longer name is requested as well |
| `AuditRows.BaseMeans` | go-susi/db/audit.go:448-460 | a row begins with the global values where they are requested |
| `AuditRows.DocumentRowMeans` | go-susi/db/audit.go:428-514 | every row has, for every requested column, the entry's value or else the global one |
| `AuditMeaning.RowsHoldCells` | go-susi/db/audit.go:428-514 | of a document every entry gives one row, in order, and the column of each requested name holds the text of the entry's last element of that name, or is empty for an empty tag that no longer requested name hides, or else holds the file's MAC address, IP address, host name or time of audit under these names, or nothing |
| `Aggregates.JoinedInjective` | go-susi/message/gosa_query_audit_aggregate.go:145-150 | joining values without < with that separator loses nothing, so that keys are equal only for equal tuples |
| `Aggregates.CountedMeans` | go-susi/message/gosa_query_audit_aggregate.go:170-193 | a streaming count is the number of distinct tuples of unique columns, or of entries, that its filter accepts |
| `Aggregates.TotalsAnswerQuery` | go-susi/message/gosa_query_audit_aggregate.go:131-194 | after any sequence of entries, the overall counts, the groups, which are the first distinct keys up to the limit, their counts and the known machines are what the query asks for |
| `Aggregates.GroupIffInTime` | go-susi/message/gosa_query_audit_aggregate.go:152-168 | a key has a group in the answer if and only if columns are selected and an entry has the key before which fewer other keys occurred than the limit allows groups |
| `Aggregates.ColumnsMean` | go-susi/message/gosa_query_audit_aggregate.go:170-193 | the combination counted for an entry has the values of the unique columns in their order |
| `Aggregates.Aggregator.Callback` | go-susi/message/gosa_query_audit_aggregate.go:131-194 | the callback changes maps and counters by exactly one specified step |
| `Aggregates.Key` | go-susi/message/gosa_query_audit_aggregate.go:145-150 | the key loop computes the joined key |
| `Tftp.TransferIsSafe` | go-susi/tftp/server.go:471-525 | whatever the network loses, repeats or reorders, the receiver holds a prefix of the data; when the server finishes it has sent len/blocksize+1 blocks and the receiver has all data |
| `TftpLimit.SafeIffDistinctIds` | go-susi/tftp/server.go:506-525 | success at the server always means that the receiver has everything, if and only if no two blocks, nor a block and the acknowledged options, share an id |
| `TftpServer.SendAndWaitForAck` | go-susi/tftp/server.go:337-424 | true if and only if some happening acknowledges the packet, before it there are only timeouts, strays and replies that are ignored, and the first write and one write for each timeout succeed; then the packet has been written once and once more for each timeout, and exactly these happenings and writes are used up; all writes and waits are those of the protocol's server |
| `TftpServer.Negotiate` | go-susi/tftp/server.go:473-492 | the usable options are answered in order and the block size is the one announced |
| `TftpServer.LastOfferCounts` | go-susi/tftp/server.go:473-492 | the announced block size is the last usable one that was asked for, or 512 |
| `TftpServer.NegotiatedMeans` | go-susi/tftp/server.go:473-492 | the length is answered exactly if it is asked for, and a block size exactly if it is offered and lies between 1 and 65536 |
| `TftpWorld.BlocksMean` | go-susi/tftp/server.go:506-527 | the packets sent for the data hold its bytes in order, with consecutive ids modulo 65536; all but the last are full and the last one is not |
| `TftpServer.HandleConnection` | go-susi/tftp/server.go:426-528 | true if and only if all packets of the transfer, options first if any, are acknowledged in that way one after the other, and then all have been written in order; the actions are a run of the protocol's server for the negotiated options, which finishes exactly if the result is true |
| `TftpServer.RunsFollow` | go-susi/tftp/server.go:337-528 | in every run of the whole system the server acts as such a run |
| `TftpCache.DataOutlivesUsers` | go-susi/tftp/server.go:108-135 | in every run the count is that of users plus delayed releases, and the bytes and error that a user was handed are neither reset nor replaced while it uses them |
| `TftpCache.LoadsAfresh` | go-susi/tftp/server.go:198-225 | in every run, a load appends to an empty buffer, so that exactly what was loaded is handed out |
| `TftpCache.AfterLifeServes` | go-susi/tftp/server.go:116-133 | after any release, even the last one, until it expires, a new user gets the same bytes as the one that released, without a load |
| `TftpCache.CacheEntry.GetFile` | go-susi/tftp/server.go:193-276 | loading or reusing an entry, with an error or not, is the specified step and hands out the entry's bytes and error |
| `TftpCache.CacheEntry.Release` | go-susi/tftp/server.go:116-133 | the last user's release is delayed, any other counts down at once |
| `TftpCache.CacheEntry.AfterLife` | go-susi/tftp/server.go:125-131 | a delayed release counts down and resets data and error if nobody uses them |
| `Limiter.Limiters.Register` | go-susi/security/connectionlimits.go:40-101 | registers one connection of one address by the specified step, leaves the others alone, and refuses addresses that cannot be parsed |
| `Limiter.Limiters.Deregister` | go-susi/security/connectionlimits.go:111-134 | counts one connection of a known address down and changes nothing else |
| `Limiter.Limiters.Update` | go-susi/security/connectionlimits.go:141-160 | sets the limits of a known address and changes nothing else |
| `Limiter.ActiveIsOpen` | go-susi/security/connectionlimits.go:40-160 | in every run, changes of the limits included, the active count grows by permitted and shrinks by closed connections and never gets negative |
| `Limiter.ActiveWithin` | go-susi/security/connectionlimits.go:87-91 | with positive limits of at most max, the active count never exceeds max |
| `Limiter.LimitedAtMost` | go-susi/security/connectionlimits.go:60-101 | in every run of any record, with its limit set and changed at any time, any hour permits at most three times the highest limit of attempts while a limit is set |
| `Limiter.HourlyLimit` | go-susi/security/connectionlimits.go:60-160 | from the moment when a record has a positive limit, whatever happened since it was created, any hour permits at most three times the limit as long as it stays the same |
| `Limiter.AttemptMeans` | go-susi/security/connectionlimits.go:60-101 | an attempt after an idle hour starts the count anew, one beyond an hour's average scales it down proportionally to the last half hour, to at most half, any other counts up; it is permitted exactly if the active connections are below their limit and the count does not exceed the hourly limit |
| `Limiter.SteadyIsServed` | go-susi/security/connectionlimits.go:60-101 | in every run whose attempts keep a distance of which the hourly limit less one makes up an hour, and that stay below the limit of connections, every attempt is permitted |
| `FaiCache.Collect` | go-susi/db/faidb.go:271-308 | the nested maps collect the bits and tag of every class and release |
| `FaiClasses.CollectedMeans` | go-susi/db/faidb.go:288-308 | the collected bits say, for each type, whether some object of the release is an instance, a removal, or a frozen instance |
| `FaiCache.Inherited` | go-susi/db/faidb.go:337-350 | the walk over the commas of a release name combines bits and tag of all its ancestors from the root on |
| `FaiClasses.TypesMean` | go-susi/db/faidb.go:337-350 | the bit-parallel fold is, for each of the seven types on its own, what the nearest release with an object of that type says |
| `FaiCache.Fill` | go-susi/db/faidb.go:324-376 | the loops emit the specified entries |
| `FaiCache.CachedMeans` | go-susi/db/faidb.go:324-376 | the cache has a class in a release, with its tag and freeze state, if and only if the nearest release that mentions the type has an instance in that state |
| `FaiMeaning.CacheHolds` | go-susi/db/faidb.go:271-376 | the same in terms of the directory's objects: cached is what the nearest level that mentions the class and type has without remove in its state, frozen exactly if one of these states has freeze, with the tag of the nearest level whose last object of the class has one |
| `FaiCache.ResolveRelease` | go-susi/fai-helpers/ldap2fai.php:278-289 | below every directory base in turn, a release's ancestors, itself first |
| `FaiCache.EffectiveClass` | go-susi/fai-helpers/ldap2fai.php:307-333 | the lookup finds the object of the nearest release that has one, and nothing if its state contains "removed" |
| `FaiCache.LookUpClass` | go-susi/fai-helpers/ldap2fai.php:278-333 | resolving a release below one base and looking along the result finds what the ancestors of the release say |
| `FaiCache.LevelsOfName` | go-susi/db/faidb.go:338-350 | the suffixes that the cache walks through are the lookup's ancestors in reverse |
| `FaiCache.FoundIsNearest` | go-susi/fai-helpers/ldap2fai.php:307-333 | the lookup finds what the nearest word says unless it misreads the object that decides; then it finds an object where the cache has a removal |
| `FaiMeaning.LookupGives` | go-susi/fai-helpers/ldap2fai.php:307-333 | an object is found exactly if it is the first one of the nearest level that has one and its state does not contain removed |
| `FaiCache.CacheAgreesIffNotMisread` | go-susi/db/faidb.go:298 | the cache lists a class of a release exactly if the lookup finds it, if and only if the object that decides is not marked with "remove" but not with "removed" |
| `FaiCache.RemoveIsMisread` | go-susi/fai-helpers/ldap2fai.php:320 | an object whose state is "remove" is found by the lookup although its class is not in the cache |
| `FaiCache.CacheAgreesWithLookup` | go-susi/db/faidb.go:324-376 | where nothing is misread, the cache has a class in a release, with tag and freeze state, if and only if the lookup finds an object in that state |
| `Registration.Handler.Round` | go-susi/message/registered.go:64-149 | one round of the loop is exactly the specified reaction to the next item of the queue |
| `Registration.NeverStuck` | go-susi/message/registered.go:64-149 | in every run, state 0 implies a pending register or timeout and state 1 a pending confirm_timeout |
| `Registration.OnlyOwnServerRegisters` | go-susi/message/registered.go:64-149 | at every step of every run the current server changes only in state 0, state 2 is entered only on a message of the current server, state 1 only from state 2, and state 0 only from state 1 |
| `Registration.CurrentIsServer` | go-susi/message/registered.go:64-149 | in every run the current server is never one of the command words of the queue |
| `Registration.TimeoutTriesNext` | go-susi/message/registered.go:102-126 | each timeout tries the next non-empty server of the list; after the last one registering starts again |
| `Registration.RegisterStartsOver` | go-susi/message/registered.go:88-95 | register in state 0 takes over the non-empty servers offered in that round, in order, forgets the current one and queues timeout; in other states it does nothing |
| `Registration.ConfirmVerifies` | go-susi/message/registered.go:134-142 | confirm, or a deregistration by the current server, leads from state 2 to state 1 and starts the timer of confirm_timeout; in other states it does nothing |
| `Registration.ConfirmTimeoutGivesUp` | go-susi/message/registered.go:96-101 | confirm_timeout leads from state 1 to state 0 and queues register; in other states it does nothing |
| `Registration.MessagesMean` | go-susi/message/registered.go:67-149 | a message of the current server registers, one of any other server queues confirm, and a deregistration by another server or an inquiry changes nothing |
| `TemplateRules.ResultMeans` | go-susi/db/systemdb.go:585-737 | judging rules one by one gives the number of satisfied rules if no negative rule matches and every run of positive rules has a match, else 0; it is positive exactly for non-empty lists that hold |
| `TemplateMatch.TakeShortens` | go-susi/db/systemdb.go:615-735 | every look at a word that the loop goes back to consumes something, so the loop ends |
| `TemplateMatch.Match` | go-susi/db/systemdb.go:585-737 | the loop over words with its rescans computes the specified evaluation |
| `TemplateMatch.RulesEvaluate` | go-susi/db/systemdb.go:585-737 | however attribute, operator, expression and next rule are spaced, well-formed rules are evaluated to their score if they hold and to 0 otherwise |
| `TemplateMeaning.TextScores` | go-susi/db/systemdb.go:585-737 | the same in terms of the text: with ~=, =~, = or ~ an expression is wanted, otherwise unwanted; its words are joined by any white space; the score is the number of wanted expressions that match some value, or the empty text if there is none, and of unwanted ones that do not, if no unwanted one matches and of wanted ones that stand together one does, else 0 |

## Left out

Nothing was executed; all claims are about the model.

- Environment: sockets, TLS, certificates, LDAP, DNS, hooks, files, logging, clocks, random delays. Times, arrivals and
  read sizes are arbitrary inputs.
- Library code: regular expressions, `kernel_name`, base64, lower-casing and splitting into words are parameters or
  happen before the model's input; XML hashes are records of fields; channels and deques are sequences.
- gosa-si compatibility: what `SyncIfNotGoSusi` does later, looking up plain names, `xmlmessage`. They leave exact
  replication by design, and so does a gosa-si as peer.
- JobServers.JobServer.JobsSyncAll: without an old table of the target, which only a gosa-si gives.
- JobServers.JobServer.SendAll: likewise without answers for old jobs.
- Job database: saving to disk, grooming and the periodic follow-up jobs in `process_act.go`; launches come as arbitrary
  edit requests, so the model does not say when they come. `JobsForwardModifyRequest` is not part of this model.
- Not modelled at all: `whereFilter` and `limitFilter`, `findFirstEntry`, the network rule sets of `config.go`,
  `gosacrypt.go`, `xml_db.go`, the queues and downtimes of `peer_connection.go`, the line framing of `go-susi.go`.
- `tftp/get.go` as receiver, because its buffer cannot hold a full packet; the receiver follows the standard.
- ReplicatedSystem.DrainedMirrors: fields agree except that the progress of a job that is being forwarded or groomed
  may differ, because the source does not announce such edits.
- ReplicatedSystem.RunAgrees: edits to forward or groom that also change another field are excluded; EditLost shows
  that they break it.
- PathOrder.ComparedIsOrder: only the source's architectures all, i386 and amd64, and no underscore in names that is
  followed by a letter from a to i, because such a name could be taken for an architecture. Further architectures
  outside the range that breaks the order are not examined.
- PackageMerge.Sort: the library's sort of the offsets is an insertion sort here; only its result matters. The lists
  hold lines of well-formed packages, as they do when they are read from Packages files or caches; the comparison of
  other lines may run out of the data.
- PackageMerge.Unite: for such lines only.
- PackageMerge.MergeLine: for such lines only.
- PackageMerge.AppendMerge: for such lists only.
- PackagesFiles.AppendPackages: base64 is any function.
- PackageLists.OpenMapped: a mapped source is a list of its own type in the source; here it shares the list's class.
- PropTree.Insert: the nodes are kept in a map by the bytes that lead to them instead of in arrays of pointers, so
  aliasing between nodes is not modelled.
- AuditFile.AuditScanFile: the callback is the sequence of rows it is called with.
- FaiCache.Fill: the order in which Go iterates over maps is given by the parameter; the greetings that the source adds
  on some dates are left out.
- FaiCache.EffectiveClass: below one directory base, as the cache has only one; the death of the script when an entry
  must exist counts as finding nothing.
- FaiCache.CacheAgreesIffNotMisread: a name belongs to one object of the directory.
- TftpServer.HandleConnection: parsing of the request and getting the file come before it; packets are values, and
  the error packets that the server sends are not modelled.
- TftpCache.CacheEntry.GetFile: one entry of the cache; its mutex makes each method one step. What a file or a command
  delivers is a parameter.
- Limiter.Limiters.Register: one map of records by address instead of 256 maps under locks.
- Registration.Handler.Round: a started timer is a pending event that can come at any time; sending the registration
  message has no effect in the model.
- TemplateMatch.Match: log messages, and the reaction to malformed rules beyond giving 0, are not modelled.

# A verified model of Redis persistence, cluster control plane, blocking operations and bit arithmetic

The repository wraps a small autoscaler around a vendored Redis 5.0.7 tree. The
hard behaviour is in the Redis C sources, and this project models six parts of
it in Dafny and proves what they promise. `dafny verify dfyconfig.toml` checks
the whole project. `Basics` holds what several modules share.

## What is modelled

- **Append-only file** (`aof.c`). `ByteStrings`, `AofLog`, `AofLoad`, `AofLoader`:
  the printer and the loader, including truncated files. `Dataset`, `AofFeed`:
  commands, their effect, and the form in which they are logged; `AofCommands`: the
  same by name and number, command by command. `AofRewrite`,
  `AofRewriter`: the rewrite in batches. `AofServer`: the parent's buffers, flush,
  block list and rewrite handler as a class whose system calls follow scripts of
  outcomes. `AofBatch`, `AofProtocol`: parent, forked child, data pipe and
  acknowledgement pipes as a step system; the main theorem is
  `AofProtocol.LogReplaysToLive`. `AofCrash`: what a crash leaves of the last command
  or transaction.
- **Cluster control plane** (`cluster.c`). `ClusterBitmap`, `ClusterSlots`: the slot
  table in its two forms. `ClusterClaims`: how claims spread. `ClusterElection`,
  `ClusterFailover`: elections as a protocol, and the handlers that carry it out.
  `ClusterEpochs`, `ClusterCollisions`: epochs over whole runs, and why collision
  resolution ends.
- **Blocking operations** (`blocked.c`, `t_list.c`, `t_zset.c`). `BlockedIndex`, `BlockedServe`,
  `BlockedClients`: the two-sided index and the loop that serves clients while it
  changes the queue it walks.
- **Bit operations** (`bitops.c`). `BitCount`, `BitField`, `BitFieldCommand`, `BitPos`.
- **Keyspace and slot index** (`db.c`). `SlotIndex`, `Keyspace`.
- **Geohash bit arithmetic** (`geohash.c`). `Geohash`.

State that the source updates in place is a class with methods; loops are loops
with invariants; protocols are state machines over their steps, with messages
that may be delayed, reordered and lost (and repeated, where that only makes the
statement stronger). 64-bit arithmetic is on unbounded numbers with the
wrap-around written out. System calls, clocks and random delays are parameters.

## Properties that do not hold, and exactly when they do

- A truncated log can keep a MULTI without its EXEC. With the whole commands of the
  file run, that is so if and only if a transaction is open, and either the cut is
  inside a command or another MULTI is queued in it: the loader records the offset of
  every MULTI, queued ones too. Then nothing appended later is run by the next load
  before the first EXEC that was appended; and that EXEC also runs what was left of
  the cut transaction, which the first load had dropped. In every other case the next
  load adds exactly what was appended (`AofLoad.LastMulti`, `AofLoad.LeftBehind`,
  `AofLoad.AppendAfterCut`, `AofLoad.OneAppended`; inputs in `AofLoad.DanglingMulti`,
  `AofLoad.LateTransaction` and `AofLoad.QueuedMulti`).
- A command is not always restored wholly or not at all after a crash: SETEX, PSETEX
  and SET with a time to live are written as two commands. The databases come back as
  they were before or after the command if and only if the file does not end between
  the two, or the key already held that string without an expire time
  (`AofCrash.CommandAllOrNothing`, `AofCrash.CrashInCommand`; an input in
  `AofCrash.HalfSetEx`). A transaction always is (`AofCrash.CrashInTransaction`).
- The assertion in `feedAppendOnlyFile` that a SET names one unit only holds if and
  only if no skipped time to live spells the other unit (`AofFeed.FeedAssertionHolds`;
  an input in `AofFeed.FeedAssertionBroken`).
- Two slaves can win the same epoch if a vote of an earlier election is counted
  between scheduling the next one and starting it. Elections are safe in every run in
  which each is started with no vote counted (`ClusterElection.ElectionSafety`); and
  no slave ever counts more votes than it was given if and only if that is so
  (`ClusterElection.CountsHonest`, `ClusterElection.StaleVoteCounted`,
  `ClusterElection.TimelyIsClean`; a run in `ClusterElection.DoubleWin`).
- `CLUSTER RESET HARD` clears the epochs but not the election in progress, so a
  later win can set a configEpoch above the currentEpoch. Over whole runs the bound
  holds in every state if and only if every election is won in an epoch its winner
  has reached (`ClusterEpochs.EpochsBounded`, `ClusterEpochs.WinBoundedIff`), and that
  is so when no hard reset hits a node whose request for votes is out
  (`ClusterEpochs.CalmRunsBounded`; a run in `ClusterEpochs.ResetDuringElection`).
- An UPDATE about a master whose header was seen before is ignored. The claimant of
  greatest configEpoch ends with an unbound slot if and only if one of its pings
  arrives, or its epoch was still to be learnt and the first packet about it is an
  UPDATE (`ClusterClaims.WinnerIff`, `ClusterClaims.UnboundWinnerIff`; an input in
  `ClusterClaims.UpdateAfterHeader`).
- Overwriting a key never signals it, so a client can be left waiting for a list or
  sorted set that has elements. An overwrite keeps every such key among the ready ones
  if and only if the new value is neither, or no client waits for its type at the key,
  or the key is ready already (`BlockedClients.OverwriteSettled`,
  `BlockedClients.Server.SetKey`; an input in `BlockedClients.OverwriteForgets`, a run
  in `BlockedClients.OverwriteRun`). Nothing else the model does forgets a client.
- BITFIELD SET with OVERFLOW SAT stores the greatest value where the least is meant
  if and only if `max - value` wraps around in the signed check (for width 63, for
  every value that is too low), or the field is unsigned and the value negative
  (`BitFieldCommand.SignedSet`, `BitFieldCommand.UnsignedSet`; inputs in
  `BitFieldCommand.SaturatedSetBroken`). The comment in the source says the difference
  is only used after a range check; the model follows the code, with two's complement
  wrap-around for the signed difference.

`emptyDb` flushes the slot index whatever database it is given, which agrees with
database 0 if and only if that one is emptied too or was empty. No command gets it to
fail: cluster mode refuses to select another database, FLUSHDB passes the client's
and all others pass -1 (`Keyspace.Server.EmptyDb`, `Keyspace.Server.Select`,
`Keyspace.Server.FlushDb`, `Keyspace.Server.FlushAll`).

## Premises

- Append-only file: it is on throughout; commands other than those the feed
  translates are one function of the databases and the argument vector that keeps
  the number of databases (`AofBatch.Lawful`); values at a fork are non-empty
  collections with expire times that fit a long long (`AofRewriter.Storable`); the
  clock stands still between performing and logging a command; the log at the start of
  a run has no MULTI without EXEC (`AofProtocol.Init`, `AofProtocol.Describes`).
- The parent runs a transaction without serving its pipes in between, so a transaction
  is one step of `AofProtocol`, with or without a fork inside.
- A crash leaves the bytes that were written to the file (`AofCrash`).
- Elections: one agreed, fixed set of voters; no node restarts.
- Epochs: conditions of votes and elections other than epochs, roles, counts and the
  quorum (timing, failure of the master, slots claimed) are left open, so there are
  more runs than the code has; a node's cluster size changes at any time.
- Collisions: masters that know each other and only exchange pings, none of which
  was in flight at the start.
- Claims: one fixed claim per master, distinct epochs, no importing slot.

## Model

| member | source | states |
|---|---|---|
| `ByteStrings.StrtolOfDigits` | redis-stable/src/aof.c:529-536 | Reading back the printed decimal text of any length up to LONG_MAX yields that length, whatever non-digit follows it. |
| `ByteStrings.DigitRunOfPrefix` | redis-stable/src/aof.c:772-775 | A cut decimal text still reads as a positive number no larger than the whole: a cut count is never a format error. |
| `AofLog.ReadPrinted` | redis-stable/src/aof.c:518-541 | Reading a printed command yields exactly that command for arbitrary binary arguments, and leaves exactly the bytes after it (RESP arrays of bulk strings). |
| `AofLog.ReadCut` | redis-stable/src/aof.c:766-802 | A printed command cut at any byte inside reads as an unexpected end of file, never as a format error. |
| `AofLog.PrintedText` | redis-stable/src/aof.c:518-541 | The printed form byte for byte: SET with a key of 3 and a value of 12 arbitrary bytes is "*3", "$3", "SET", "$3", the key, "$12", the value, each followed by CR LF. |
| `AofLoad.LoadWhole` | redis-stable/src/aof.c:752-837 | Whole commands are run in order and the valid offsets (including the one before an open MULTI) advance over them. |
| `AofLoad.SplitPrefix` | redis-stable/src/aof.c:752-802 | Any byte prefix of a log is its wholly contained commands followed by a proper prefix of the next one. |
| `AofLoad.LoadOfPrefix` | redis-stable/src/aof.c:752-899 | Loading any byte prefix of any log, with any options, has the outcome of its wholly contained commands: it never takes the format-error exit, and runs exactly those commands, less those of a MULTI without EXEC. |
| `AofLoad.EveryPrefix` | redis-stable/src/aof.c:839-899 | The same spelled out: the prefix ends after k commands or inside the next. The server exits, with an unexpected end of file, if and only if the prefix ends inside a command or in an open transaction and truncated files are refused or cannot be truncated. In every other case it runs the commands executed by those k and leaves the file at their end, or in front of the last MULTI if a transaction was open. |
| `AofLoad.CutOnlyIfAllowed` | redis-stable/src/aof.c:867-894 | For every file, well formed or not: an unexpected end of file stops the server only where the file may not or cannot be truncated, and only where it may and can is the file shortened. |
| `AofLoad.GarbageRefused` | redis-stable/src/aof.c:772-772 | Bytes that do not start with "*" behind any log are a format error, whatever the options. |
| `AofLoad.UnknownRefused` | redis-stable/src/aof.c:804-811 | A command the server does not know, behind any log and followed by anything, ends the load. |
| `AofLoad.PreambleText` | redis-stable/src/aof.c:732-733 | The mark of an RDB preamble is the text "REDIS". |
| `AofLoad.LoadOfLog` | redis-stable/src/aof.c:698-858 | Loading a complete log runs exactly its commands; an open transaction at its end is cut off. |
| `AofLoad.OpenTransaction` | redis-stable/src/aof.c:813-848 | Where an open transaction starts: what came before was run, and what the client has queued is what follows. |
| `AofLoad.LastMulti` | redis-stable/src/aof.c:813-848 | The offset kept in an open transaction is that of its last MULTI, queued or not; cutting there leaves what was run as it was, and undoes the transaction if and only if no MULTI is queued. |
| `AofLoad.LeftBehind` | redis-stable/src/aof.c:813-891 | For every log, after a load that cuts the file, the file is a log of whole commands that runs to the same result; it ends inside a transaction if and only if one was open and the damage was inside a command or another MULTI is queued in it. |
| `AofLoad.AppendAfterCut` | redis-stable/src/aof.c:813-891 | For every log and any commands appended after such a load, what the next load runs: all of them as on their own, unless a MULTI was left open. Then everything is held back up to the first EXEC appended, which also runs what was left of the cut transaction. |
| `AofLoad.OneAppended` | redis-stable/src/aof.c:839-891 | One plain command appended survives the next load if and only if no MULTI was left open. |
| `AofLoad.DanglingMulti` | redis-stable/src/aof.c:860-891 | The failing case, concretely: after MULTI, a command and one byte of another, no list of commands without EXEC that is appended runs at the next load. |
| `AofLoad.LateTransaction` | redis-stable/src/aof.c:813-837 | The same file with a whole transaction appended: the next load also runs the command that the first load had dropped. |
| `AofLoad.QueuedMulti` | redis-stable/src/aof.c:813-848 | The other failing case: the log MULTI, x, MULTI, z ends between commands, and the load cuts at the queued MULTI and leaves the first one open. |
| `AofLoad.RunInside` | redis-stable/src/aof.c:815-824 | Inside a transaction commands are queued up to the first EXEC, which runs the queue; the rest runs as after a fresh start. |
| `AofLoader.CatAppendOnlyGenericCommand` | redis-stable/src/aof.c:518-541 | The in-place printer appends exactly the printed form of the command. |
| `AofLoader.ReadArgument` | redis-stable/src/aof.c:781-802 | One argument is read as the reading function says, and the position ends where the rest begins. |
| `AofLoader.ReadArguments` | redis-stable/src/aof.c:777-802 | The argument loop reads exactly argc arguments or stops with the first failure. |
| `AofLoader.ReadNext` | redis-stable/src/aof.c:766-802 | One command is read from the current position, with end of file, short read, read error and format error told apart. |
| `AofLoader.LoadAppendOnlyFile` | redis-stable/src/aof.c:698-900 | The goto-driven loader computes exactly the loading function the theorems are about, for every file and option. An unexpected end of file makes it exit only where the file may not or cannot be truncated, and it shortens the file only where it may and can. |
| `Dataset.ReplayAllAppend` | redis-stable/src/aof.c:804-837 | Replaying a concatenation is replaying its parts in turn. |
| `AofFeed.ScanFindsTtl` | redis-stable/src/aof.c:607-615 | The feed's scan for the unit in use finds exactly the time to live that setCommand parsed. |
| `AofFeed.ScanFindsOther` | redis-stable/src/aof.c:607-616 | The scan for the other unit finds something exactly when a skipped time to live spells that unit. |
| `AofFeed.ScansOfSet` | redis-stable/src/t_string.c:96-140 | For every SET that is performed, what the two scans find is what the command meant, or a skipped time to live. |
| `AofFeed.ScanStaysInside` | redis-stable/src/aof.c:608-615 | For a performed SET the loop, which takes the argument after a unit without a bound check, never reads past the last one. |
| `AofFeed.LastOption` | redis-stable/src/aof.c:608-615 | The last argument of a SET that parses spells neither unit. |
| `AofFeed.FeedAssertionHolds` | redis-stable/src/aof.c:616-616 | The assertion that not both units are found holds for a performed SET if and only if no skipped time to live spells the other unit (SET k v EX px EX 10 trips it). |
| `AofFeed.FeedAssertionBroken` | redis-stable/src/aof.c:607-616 | The failing input: SET k v EX px EX 10 is performed at any time on any database, and both units are found. |
| `AofFeed.ReplaySetAndExpire` | redis-stable/src/aof.c:599-622 | The SET and PEXPIREAT written for a SET with a time to live leave the value with that deadline. |
| `AofFeed.TranslateCorrect` | redis-stable/src/aof.c:550-628 | Whatever is written for a performed command (expire commands, SETEX, PSETEX, SET with options, any other), replaying it at any later time leaves the databases as the command left them. What that is, number by number, is in the rows of `AofCommands`. |
| `AofCommands.ControlNames` | redis-stable/src/server.c:227-249 | SELECT, MULTI and EXEC are written and found under these names. |
| `AofCommands.ExpireMeans` | redis-stable/src/aof.c:550-576 | EXPIRE k n at time now sets the expire time of an existing key to now + 1000n, is written as PEXPIREAT k with that number, and changes nothing else; n zero or negative deletes the key and is written as DEL; a missing key is left alone and nothing is written. |
| `AofCommands.PExpireMeans` | redis-stable/src/aof.c:550-576 | PEXPIRE k n: the same with now + n. |
| `AofCommands.ExpireAtMeans` | redis-stable/src/expire.c:405-450 | EXPIREAT k n: the expire time is 1000n, as written; a time that is not in the future deletes the key. |
| `AofCommands.PExpireAtMeans` | redis-stable/src/expire.c:405-450 | PEXPIREAT k n is performed and written with n itself. |
| `AofCommands.SetExMeans` | redis-stable/src/t_string.c:147-150 | SETEX k n v sets the string with expire time now + 1000n and is written as SET k v and PEXPIREAT k with that number; n zero or negative is refused. |
| `AofCommands.PSetExMeans` | redis-stable/src/t_string.c:152-155 | PSETEX k n v: the same with now + n. |
| `AofCommands.SetTtlMeans` | redis-stable/src/aof.c:607-622 | SET k v EX n and SET k v PX n set the string with expire time now + 1000n, or now + n, and are written as SET k v and PEXPIREAT k with that number; n = 0, or a time beyond a long long, is refused. |
| `AofCommands.PlainSetMeans` | redis-stable/src/t_string.c:67-93 | SET k v sets the string, clears the expire time and is written as it is. |
| `AofCommands.ConditionalSetMeans` | redis-stable/src/t_string.c:77-84 | SET with NX is performed exactly when the key is missing, with XX exactly when it is there; both are written as plain SET. |
| `AofCommands.DelMeans` | redis-stable/src/db.c:468-484 | DEL removes exactly the keys named. |
| `AofCommands.PushMeans` | redis-stable/src/t_list.c:197-224 | RPUSH appends its elements in order, keeps the expire time of the key and touches no other; a value of another type is left as it was. |
| `AofCommands.AddMeans` | redis-stable/src/t_set.c:264-288 | SADD adds its members, with the same frame. |
| `AofCommands.PairMeans` | redis-stable/src/t_hash.c:530-557 | HMSET takes field then value, ZADD score then member, with the same frame. |
| `AofCommands.MorePairs` | redis-stable/src/t_hash.c:530-557 | Further pairs are added one after the other. |
| `AofCommands.BuildMeans` | redis-stable/src/t_zset.c:1532-1652 | For any arguments, the four commands that build collections keep the expire time of the key and touch no other key. |
| `AofRewrite.OwedHeader` | redis-stable/src/aof.c:930-946 | Every emitted header declares exactly the arguments that follow it, for any batch limit. |
| `AofRewrite.RewriteItems` | redis-stable/src/aof.c:922-1122 | The counting loop shared by the four rewriters prints exactly one command per limit items, the last one shorter. |
| `AofRewrite.BatchSizes` | redis-stable/src/aof.c:922-1122 | Every command but the last holds exactly the limit of items, and the last one at least one and no more. |
| `AofRewrite.ValueCommandSizes` | redis-stable/src/aof.c:922-1122 | A collection is rewritten in commands of 64 elements, or 64 pairs, and one for what is left. |
| `AofRewrite.ReplayBatches` | redis-stable/src/aof.c:922-1122 | For every collection size and every batch limit of at least one, replaying the batches does what one command with all the items does. |
| `AofRewrite.ReplayValue` | redis-stable/src/aof.c:1318-1340 | Replaying the commands of a value rebuilds exactly that string, list, set, sorted set or hash, whatever the iteration order. |
| `AofRewrite.ReplayEntry` | redis-stable/src/aof.c:1318-1347 | Replaying the commands of a key rebuilds its value and its expire time. |
| `AofRewrite.EntryLoggable` | redis-stable/src/aof.c:1318-1347 | Every command emitted for a key prints, is known to the loader and runs at once. |
| `AofRewriter.Iterate` | redis-stable/src/aof.c:1300-1307 | A dictionary iteration visits every element once, in some order. |
| `AofRewriter.RewriteValue` | redis-stable/src/aof.c:1318-1340 | The bytes written for a value are the printed commands that rebuild it. |
| `AofRewriter.RewriteEntry` | redis-stable/src/aof.c:1312-1347 | The bytes written for a key are the printed commands that rebuild it and its expire time. |
| `AofRewriter.RewriteDb` | redis-stable/src/aof.c:1306-1353 | The inner loop writes a log that rebuilds the selected database. |
| `AofRewriter.RewriteAppendOnlyFileRio` | redis-stable/src/aof.c:1289-1362 | The rewritten log, loaded into empty databases, rebuilds the whole dataset exactly. |
| `AofServer.Server.AofRewriteBufferAppend` | redis-stable/src/aof.c:125-169 | Appending fills the last block and opens new ones of 10 MB, all full but the last; the flattened blocks gain exactly the bytes. |
| `AofServer.Server.AofChildWriteDiffData` | redis-stable/src/aof.c:95-122 | Under any partial writes the bytes that reached the pipe are the front of the flattened blocks, the rest stays, and nothing is sent once sending stopped; otherwise it goes on until the blocks are empty or the pipe takes nothing. |
| `AofServer.Server.AofWrite` | redis-stable/src/aof.c:297-316 | Under any short writes and interruptions the file gains exactly the bytes taken up to the first error, all of them without one, and the result says how many. |
| `AofServer.Server.FlushAppendOnlyFile` | redis-stable/src/aof.c:337-489 | Under any short, interrupted or failing write and any outcome of ftruncate, file ++ aof_buf is unchanged and aof_current_size is the file length. Exactly when flushing waits for a sync, at most two seconds, when the server exits, how many bytes are flushed, and when the last write counts as failed. |
| `AofServer.Server.ScanUnits` | redis-stable/src/aof.c:608-616 | The option loop finds, for each unit, the argument after its last spelling that has one; for a performed SET that is every spelling. |
| `AofServer.Server.CatTranslated` | redis-stable/src/aof.c:596-628 | The bytes built for a command are the printed form of its translation. |
| `AofServer.Server.CatSet` | redis-stable/src/aof.c:607-622 | SET with options is written as SET and the expire commands of the units found. |
| `AofServer.Server.FeedAppendOnlyFile` | redis-stable/src/aof.c:580-644 | The same bytes (SELECT if the database changed, then the translation) go to aof_buf and, while a child runs, to the blocks; the selected database is then the command's. |
| `AofServer.Server.RewriteAppendOnlyFileBackground` | redis-stable/src/aof.c:1559-1617 | A rewrite starts exactly with no child running and a fork that works; it resets the selected database, so that the next command fed starts with SELECT, and lets the parent send again. |
| `AofServer.Server.AofChildPipeReadable` | redis-stable/src/aof.c:1476-1497 | The parent stops sending exactly on a "!", and acknowledges it exactly if the write works. |
| `AofServer.Server.AofRewriteBufferWrite` | redis-stable/src/aof.c:174-194 | The remaining blocks are appended whole to the child's file, if and only if every write takes its whole block. |
| `AofServer.Server.BackgroundRewriteDoneHandler` | redis-stable/src/aof.c:1660-1808 | Exactly when the child exited with zero, by no signal, and every call works, it switches to the child's file plus the remaining blocks and drops aof_buf; every failure leaves the old file and buffer as they were. |
| `AofServer.Server.KillAppendOnlyChild` | redis-stable/src/aof.c:213-230 | Killing the child gives the rewrite up and keeps file and buffer. |
| `AofBatch.PerformedLoggable` | redis-stable/src/aof.c:580-628 | Everything written for a performed command prints, and the loader knows it and runs it at once. |
| `AofBatch.TransactionLeads` | redis-stable/src/aof.c:804-837 | What is written for a transaction reads back as a closed run of the loader, and replaying it leads every session in step with the start to one in step with the end. |
| `AofBatch.DividedLeads` | redis-stable/src/multi.c:160-205 | A transaction during which the rewrite forks: the log goes on behind its MULTI, and what is written after the fork, ending with an EXEC without MULTI, leads on its own from the databases at the fork to those at the end. |
| `AofBatch.CommandsLead` | redis-stable/src/aof.c:580-644 | The same for any list of commands on any databases, SELECTs included. |
| `AofProtocol.RewrittenDescribes` | redis-stable/src/aof.c:1426-1445 | The rewritten log followed by what was fed since the fork replays to the live dataset: nothing is lost or applied twice when aof_buf is dropped. |
| `AofProtocol.RewrittenLoads` | redis-stable/src/aof.c:1289-1362 | The bytes of a rewrite, loaded into empty databases under any loading options, give exactly the dataset they were written from. |
| `AofProtocol.ReapKeepsInv` | redis-stable/src/aof.c:1660-1808 | Switching to the rewritten file, or giving it up, keeps the invariant of the protocol. |
| `AofProtocol.ForkInsideKeepsInv` | redis-stable/src/aof.c:1559-1633 | A fork between two commands of a transaction (BGREWRITEAOF queued in MULTI) keeps the invariant, before and after the switch. |
| `AofProtocol.NextKeepsInv` | redis-stable/src/aof.c:1371-1497 | Every step of parent, child and pipes (commands, transactions with or without a fork inside, flushes, partial sends and reads, the '!' handshake, child success or failure, the switch) keeps the invariant. |
| `AofProtocol.LogReplaysToLive` | redis-stable/src/aof.c:1660-1808 | In every reachable state of every interleaving, file ++ aof_buf loads to exactly the live dataset under any loading options, and the recorded size is the file's. |
| `AofProtocol.NothingLostInTransit` | redis-stable/src/aof.c:95-169 | While a child is rewriting, its diff ++ the pipe ++ the flattened blocks are exactly the bytes fed since the fork. |
| `AofProtocol.CrashKeepsPrefix` | redis-stable/src/aof.c:337-489 | After a crash at any moment, loading the file runs exactly the commands it wholly contains, less an open transaction. |
| `AofCrash.TransactionWritten` | redis-stable/src/multi.c:160-205 | A transaction is written as MULTI, its commands and EXEC, with nothing in between that the loader takes for either. |
| `AofCrash.TransactionAllOrNothing` | redis-stable/src/aof.c:813-848 | However many of its commands are in the file, short of all, what the loader runs of a transaction leaves the databases as they were before it; with all of them, as they are after it. |
| `AofCrash.InParts` | redis-stable/src/aof.c:596-628 | Every command is written as one command, or as a SET and the expire time of its key. |
| `AofCrash.CommandAllOrNothing` | redis-stable/src/aof.c:599-622 | The same for one command holds if and only if the file does not end between the two parts it is written in, or the key already held the string without an expire time; there the key is left with the new value and no expire time. |
| `AofCrash.HalfSetEx` | redis-stable/src/aof.c:601-606 | The failing input: SETEX k 10 v on an empty database, cut after its first part, leaves a key that never expires. |
| `AofCrash.CrashInTransaction` | redis-stable/src/aof.c:839-891 | In every run: a server that stops while its file holds some but not all of the bytes of a transaction comes back, truncating the file, with the databases as they were before the transaction. |
| `AofCrash.CrashInCommand` | redis-stable/src/aof.c:839-891 | In every run: one that stops inside the bytes of one command comes back with the databases as they were before it, unless the file ends behind the first of its two parts. |
| `ClusterBitmap.BitEffects` | redis-stable/src/cluster.c:3625-3645 | Setting and clearing a slot bit changes that bit and no other. |
| `ClusterBitmap.MaskWeights` | redis-stable/src/cluster.c:3627-3631 | Bit 0 of a byte is the least significant, and each next one has twice the weight. |
| `ClusterBitmap.SameBitmap` | redis-stable/src/cluster.c:1932-1937 | Two bitmaps are equal bytes if and only if they hold the same slots (the memcmp of the packet handler). |
| `ClusterSlots.BitIsOwner` | redis-stable/src/cluster.c:3664-3723 | In a consistent table, bit j of node n is set if and only if slots[j] is n. |
| `ClusterSlots.ClusterState.constructor` | redis-stable/src/cluster.c:430-454 | A new node knows only itself and owns no slot; the table is consistent. |
| `ClusterSlots.ClusterState.AddSlot` | redis-stable/src/cluster.c:3706-3711 | Adds exactly a free slot, refuses a bound one, and keeps the table and the bitmaps the same relation with numslots the popcount. |
| `ClusterSlots.ClusterState.DelSlot` | redis-stable/src/cluster.c:3716-3723 | Frees exactly a bound slot; the assertion that the owner's bit is set cannot fail. |
| `ClusterSlots.ClusterState.DelNodeSlots` | redis-stable/src/cluster.c:3727-3737 | Frees exactly the slots of the node and returns how many they were. |
| `ClusterSlots.ClusterState.RebindSlot` | redis-stable/src/cluster.c:1555-1590 | A claimed slot moves exactly when it is not importing and is free or held under a lower epoch. |
| `ClusterSlots.ClusterState.UpdateSlotsConfigWith` | redis-stable/src/cluster.c:1531-1591 | Over the whole table; the lost slots with keys and the change of master are reported exactly. |
| `ClusterSlots.ClusterState.ProcessClaim` | redis-stable/src/cluster.c:1932-1944 | Skipping the update when the bitmaps compare equal changes nothing: the outcome is the full update's in both cases. |
| `ClusterSlots.ClusterState.FailoverReplaceYourMaster` | redis-stable/src/cluster.c:2909-2925 | The promoted slave owns exactly the slots of its old master; the table stays consistent. |
| `ClusterSlots.ClusterState.DelNode` | redis-stable/src/cluster.c:906-933 | Deleting a node leaves no slot, open slot or slave that refers to it, and changes nothing else. |
| `ClusterSlots.ClusterState.LetGo` | redis-stable/src/cluster.c:912-919 | The loop: every reference to the node in the three slot tables goes, and the table stays consistent. |
| `ClusterSlots.ClusterState.LetGoSlot` | redis-stable/src/cluster.c:912-919 | One turn of it. |
| `ClusterSlots.ClusterState.AddNode` | redis-stable/src/cluster.c:887-893 | A node that was not known comes with a blank bitmap, no slots and epoch zero, and the table stays consistent; a known one is refused. |
| `ClusterSlots.ClusterState.AddOrDelSlots` | redis-stable/src/cluster.c:4286-4322 | CLUSTER ADDSLOTS and DELSLOTS change all the slots named or, if one is in the wrong state, none. |
| `ClusterSlots.ClusterState.ChangeSlot` | redis-stable/src/cluster.c:4309-4321 | One slot is added or freed and no longer importing; the assertion that this succeeds cannot fail. |
| `ClusterClaims.HeldOnlyRises` | redis-stable/src/cluster.c:1531-1591 | No header, PING, PONG or UPDATE lowers the epoch under which a slot is held; one that moves a bound slot raises it. |
| `ClusterClaims.ReceiveAllKeeps` | redis-stable/src/cluster.c:1702-1714 | After any packets in any order with any repetition, every claim pinged at least once has been met or beaten in every slot. |
| `ClusterClaims.Converges` | redis-stable/src/cluster.c:1531-1591 | With distinct claim epochs, once every claimant has pinged, every slot belongs to its claimant of greatest configEpoch, and an unclaimed slot to nobody. |
| `ClusterClaims.OrderIrrelevant` | redis-stable/src/cluster.c:1932-1944 | Two nodes that start with the slot unbound and hear every claimant, in any two orders, agree on its owner. |
| `ClusterClaims.SomebodyWins` | redis-stable/src/cluster.c:1567-1570 | A slot that somebody claims has a claimant of greatest configEpoch. |
| `ClusterClaims.OwnSlotsBound` | redis-stable/src/cluster.c:1548-1556 | A master whose table binds only its own slots starts with its own claim applied, so the convergence of claims covers the ordinary receiver. |
| `ClusterClaims.WinnerIff` | redis-stable/src/cluster.c:1932-2092 | For any packets in any order, the claimant of greatest configEpoch ends with the slot if and only if it had it, or some packet is a PING or PONG of it, or its epoch was still to be learnt and the first packet about it is an UPDATE. |
| `ClusterClaims.UnboundWinnerIff` | redis-stable/src/cluster.c:2071-2092 | The same from an unbound slot, as a condition on the packets and the epoch known at the start. |
| `ClusterClaims.UpdateAfterHeader` | redis-stable/src/cluster.c:2071-2092 | The failing case, concretely: an UPDATE that follows a mere header of the same master is ignored and binds nothing. |
| `ClusterClaims.ReceivePacket` | redis-stable/src/cluster.c:1932-2092 | The handlers, on the slot table and the bitmaps in place, do to owners and epochs exactly what the receiving function of these theorems says, for every receiver, slots of its own included, and every packet about another node. |
| `ClusterClaims.ReceivePackets` | redis-stable/src/cluster.c:1932-2092 | So any sequence of packets leaves the real table as the theorems say, bitmaps and counts still in agreement with it. |
| `ClusterElection.VoteIsNew` | redis-stable/src/cluster.c:2725-2741 | A vote that is granted is for the epoch asked for, and the voter's first in that epoch. |
| `ClusterElection.CountedOnce` | redis-stable/src/cluster.c:2046-2058 | A vote that is counted is of the slave's present election epoch and was not counted before. |
| `ClusterElection.NextKeepsInv` | redis-stable/src/cluster.c:2707-2808 | Every step (headers, scheduling, clean starting, votes early or late, counting, winning, loss) keeps: one vote per voter and epoch, and each count the number of distinct voters who voted for that slave in its epoch. |
| `ClusterElection.OneWinner` | redis-stable/src/cluster.c:3097-3113 | Two majorities share a voter, so an epoch has at most one winner. |
| `ClusterElection.ElectionSafety` | redis-stable/src/cluster.c:3083-3113 | In every run over a fixed voter set in which each election starts with no vote counted, two slaves that win the same epoch are the same slave. |
| `ClusterElection.StaleVoteCounted` | redis-stable/src/cluster.c:3019-3025 | When a vote is counted, the election it counts for has no more counted votes than voters who voted for it if and only if the request for votes was already out. |
| `ClusterElection.CountsHonest` | redis-stable/src/cluster.c:3019-3089 | In every run, no slave ever counts more votes than voters voted for it in its epoch, if and only if no election is started with a vote already counted. |
| `ClusterElection.TimelyIsClean` | redis-stable/src/cluster.c:3019-3089 | Elections start clean in every run in which no vote is counted between scheduling one and starting it. |
| `ClusterElection.DoubleWin` | redis-stable/src/cluster.c:3083-3089 | Without that premise two slaves can win the same epoch: a run that does it. |
| `ClusterElection.NextKeepsWon` | redis-stable/src/cluster.c:3097-3113 | Every step keeps: a node's configEpoch is the one it started with or that of an election it won, and not below any of these. |
| `ClusterElection.WinTakesEpoch` | redis-stable/src/cluster.c:3103-3108 | In every run, winning sets the winner's configEpoch to the greater of its own and the election's, and nobody else's; it is the election's if the winner started with a configEpoch no greater than its currentEpoch. |
| `ClusterElection.WinnersDiffer` | redis-stable/src/cluster.c:3097-3113 | In every run in which elections start clean, two slaves that have won, each an election of a greater epoch than the configEpoch it started with, have different configEpochs. |
| `ClusterFailover.Elections.ProcessHeader` | redis-stable/src/cluster.c:1702-1708 | currentEpoch becomes the greater of the two epochs and nothing else changes: the protocol's header step. |
| `ClusterFailover.Elections.SendFailoverAuthIfNeeded` | redis-stable/src/cluster.c:2707-2808 | A vote is granted if and only if epochs, role, failure of the master, the vote delay and the epochs of all claimed slots allow it, each condition written out; lastVoteEpoch becomes the currentEpoch, and voted_time now, only then. |
| `ClusterFailover.Elections.ProcessAuthAck` | redis-stable/src/cluster.c:2046-2058 | A vote is counted if and only if it comes from a voter with a current epoch not below the election's. |
| `ClusterFailover.Elections.HandleSlaveFailover` | redis-stable/src/cluster.c:2947-3117 | Exactly when an election is scheduled, started or won, by time, rank, retry and quorum, and what each does to every epoch, counter, delay and rank; a win sets configEpoch to the greater of itself and the election's epoch. |
| `ClusterFailover.HandlerTakesStep` | redis-stable/src/cluster.c:2947-3117 | Whatever the handler does is an enabled step of the election protocol with that step's effect, and a clean one unless it starts an election with votes counted. |
| `ClusterFailover.AnswerTakesStep` | redis-stable/src/cluster.c:2681-2700 | The voter's answer is the protocol's delivery step, and it sends an ACK exactly when that step does. |
| `ClusterFailover.VoteTakesStep` | redis-stable/src/cluster.c:2046-2058 | Counting an ACK is the protocol's delivery step. |
| `ClusterEpochs.NextKeepsInv` | redis-stable/src/cluster.c:1702-1714 | Headers, UPDATEs, votes, bumps, collisions, scheduling, starting and timely winning of elections, SET-CONFIG-EPOCH, learning, forgetting, replicating and resets keep every configEpoch kept or carried at most the currentEpoch beside it. |
| `ClusterEpochs.EpochsBounded` | redis-stable/src/cluster.c:3019-3113 | In every run, with any number of elections per node, that holds in every state if and only if every election is won in an epoch its winner has reached. |
| `ClusterEpochs.CalmRunsBounded` | redis-stable/src/cluster.c:532-568 | So it holds in every run in which no hard reset hits a node whose request for votes is out. |
| `ClusterEpochs.CurrentEpochMonotone` | redis-stable/src/cluster.c:1013-1030 | A host's currentEpoch never decreases, in any run, except by CLUSTER RESET HARD. |
| `ClusterEpochs.WinBoundedIff` | redis-stable/src/cluster.c:3103-3108 | Winning an election keeps the bound if and only if the election's epoch is not above the current one. |
| `ClusterEpochs.ResetDuringElection` | redis-stable/src/cluster.c:532-568 | A hard reset leaves the election state and its count behind: a run from a sound state in which the votes are asked for, given and counted, the slave is reset, joins a cluster whose quorum the count meets, and wins with a configEpoch above its currentEpoch. |
| `ClusterEpochs.Epochs.GetMaxEpoch` | redis-stable/src/cluster.c:969-983 | The greatest epoch the node knows of. |
| `ClusterEpochs.Epochs.BumpConfigEpochWithoutConsensus` | redis-stable/src/cluster.c:1013-1030 | A bump happens exactly when the own epoch is zero or not the greatest known, and then it is above every other known one. |
| `ClusterEpochs.Epochs.HandleConfigEpochCollision` | redis-stable/src/cluster.c:1078-1093 | Exactly the master with the smaller ID moves, to the next epoch. |
| `ClusterEpochs.ReceivedMeans` | redis-stable/src/cluster.c:2071-2085 | After any packet from a known node the receiver keeps, of each node it knows, the greatest epoch it had, saw in that node's header or was told of it in an UPDATE, and the greater currentEpoch; only on a collision of which it has the smaller ID it takes the next epoch. An UPDATE that raises its own epoch makes it a master. A packet from an unknown node changes nothing. |
| `ClusterEpochs.Epochs.ProcessHeader` | redis-stable/src/cluster.c:1702-1714 | The epochs of the header, applied in place. |
| `ClusterEpochs.Epochs.ProcessPacket` | redis-stable/src/cluster.c:1702-1714 | The packet handler's effect on epochs, on the count of votes and on its own role is the protocol's receive step and keeps the bound. |
| `ClusterEpochs.Epochs.SetConfigEpoch` | redis-stable/src/cluster.c:4705-4740 | Accepted exactly for a non-negative epoch on a node that knows no other and has no epoch; the bound is kept. |
| `ClusterCollisions.MoveHasCause` | redis-stable/src/cluster.c:1992-1997 | A master changes its epoch only upward, and only because a master with a greater ID said it had the same one. |
| `ClusterCollisions.HistoryHolds` | redis-stable/src/cluster.c:1078-1093 | In every run of pings, each epoch a master has left was held by a master with a greater ID. |
| `ClusterCollisions.CollisionsConverge` | redis-stable/src/cluster.c:1078-1093 | n masters make at most 2^n - n - 1 collision bumps in any run, under any delay, loss, reordering or repetition of pings. |
| `ClusterCollisions.GreatestNeverMoves` | redis-stable/src/cluster.c:1081-1083 | The master with the greatest ID never moves. |
| `ClusterCollisions.FreshPingMoves` | redis-stable/src/cluster.c:1992-1997 | A fresh ping moves its receiver if and only if the two share an epoch and the sender's ID is greater. |
| `ClusterCollisions.NotAheadHolds` | redis-stable/src/cluster.c:1702-1714 | In every state of such a run, what a master knows of another is not ahead of it: the premise of the previous row. |
| `BlockedIndex.DequeuedIndex` | redis-stable/src/blocked.c:566-571 | Taking a client out of one queue keeps the two sides of the index the same relation. |
| `BlockedIndex.EnqueuedIndex` | redis-stable/src/blocked.c:527-547 | So does adding it at the end of a queue. |
| `BlockedClients.Server.constructor` | redis-stable/src/blocked.c:102-107 | A server with no client blocked is settled: index, counters, flags and ready keys agree. |
| `BlockedClients.Server.BlockClient` | redis-stable/src/blocked.c:102-107 | The counters stay the numbers of blocked clients, in all and by type. |
| `BlockedClients.Server.JoinQueue` | redis-stable/src/blocked.c:527-547 | One key: skipped when the client has it already, else the client goes to the end of its queue. |
| `BlockedClients.Server.JoinQueues` | redis-stable/src/blocked.c:518-548 | The key loop: each key named is joined once. |
| `BlockedClients.Server.BlockForKeys` | redis-stable/src/blocked.c:508-550 | The client joins the end of the queue of each key once, however often the key is named; every other queue is unchanged and the whole invariant holds. |
| `BlockedClients.Server.UnblockClientWaitingData` | redis-stable/src/blocked.c:554-587 | The client leaves every queue it is in, the others keep their order, emptied queues are dropped, and the queue asserted to exist does. |
| `BlockedClients.Server.LeaveQueues` | redis-stable/src/blocked.c:162-173 | The part of unblocking that depends on the block type; clients blocked on no key are in no queue. |
| `BlockedClients.Server.UncountClient` | redis-stable/src/blocked.c:176-179 | The counters follow the client that stops being blocked. |
| `BlockedClients.Server.UnblockClient` | redis-stable/src/blocked.c:162-181 | Unblocking keeps the whole invariant and queues the client for reprocessing once. |
| `BlockedClients.Server.QueueClientForReprocessing` | redis-stable/src/blocked.c:151-158 | The UNBLOCKED flag holds if and only if the client is in the list, where it is once. |
| `BlockedClients.Server.ProcessUnblockedClients` | redis-stable/src/blocked.c:112-133 | Every queued client is taken once, in order, its flag cleared; those blocked again are passed over. |
| `BlockedClients.Server.SignalKeyAsReady` | redis-stable/src/blocked.c:596-617 | The ready dictionary is exactly the keys queued, in the list and in the batch being drained, each queued once. |
| `BlockedClients.Server.AddList` | redis-stable/src/db.c:173-182 | A list that comes into being is signalled if somebody waits for it. |
| `BlockedServe.ServeConserves` | redis-stable/src/t_list.c:628-683 | Serving a client delivers the popped element once, moves it to the target, or puts it back where it was. |
| `BlockedServe.AllConserved` | redis-stable/src/blocked.c:287-326 | Over any number of served clients, lists and deliveries together hold exactly the elements there were. |
| `BlockedServe.PushBack` | redis-stable/src/blocked.c:303-319 | A popped element pushed back at the end it came from restores the list. |
| `BlockedServe.ServeMeans` | redis-stable/src/t_list.c:628-683 | One client served, end by end: BLPOP and BZPOPMIN take the first element, BRPOP and BZPOPMAX the last; BRPOPLPUSH takes the last and puts it at the head of the destination, in front of what that held; a destination of the wrong type leaves everything as it was. |
| `BlockedServe.Rotation` | redis-stable/src/t_list.c:550-563 | BRPOPLPUSH from a list to itself rotates it: the last element comes first and the others keep their order. |
| `BlockedServe.FirstComeFirstServed` | redis-stable/src/blocked.c:287-326 | Clients blocked in BLPOP get the elements from the first on, in the order in which they are served, each its own, and what is left is the rest. |
| `BlockedServe.PushedEnd` | redis-stable/src/t_list.c:197-224 | Pushed at the tail, elements stand behind in their order; pushed at the head, in front in reverse. |
| `BlockedClients.Server.ServeClientBlockedOnList` | redis-stable/src/t_list.c:628-683 | The reply; the element at the head of the destination, in front of what it held, and no other key changed; refusal exactly for a destination that is no list; and the signal for a destination that was missing. |
| `BlockedClients.Server.ServeReceiver` | redis-stable/src/blocked.c:299-366 | Serving one client, from a list or a sorted set, has exactly the specified effect on values, replies, index and ready keys. |
| `BlockedClients.Server.ServeListReceiver` | redis-stable/src/blocked.c:299-322 | For a list: pop from the end the client named, unblock, serve and push back on failure; the lists and the reply are written out for a plain pop, a move to another list, a rotation and a refusal. |
| `BlockedClients.Server.ServeZsetReceiver` | redis-stable/src/blocked.c:362-366 | For a sorted set: unblock, then pop the member of least or greatest score; the others stay in order. |
| `BlockedClients.Server.ZPop` | redis-stable/src/t_zset.c:3174-3231 | The first or last member leaves the set, the others stay in order, and it is replied with its key. |
| `BlockedClients.Server.RotateFirst` | redis-stable/src/blocked.c:291-297 | A client that waits for another type goes to the end of the queue, and the index stays valid. |
| `BlockedClients.Server.VisitFirst` | redis-stable/src/blocked.c:287-367 | One turn of either loop; the queue it touches has not been freed, and it says no more only when the value is used up. |
| `BlockedClients.Server.RotateTurn` | redis-stable/src/blocked.c:291-297 | A turn that moves the client behind keeps the state of the loop. |
| `BlockedClients.Server.ServeTurn` | redis-stable/src/blocked.c:299-366 | So does a turn that serves it. |
| `BlockedClients.Server.ServeQueue` | redis-stable/src/blocked.c:275-380 | Either loop visits a prefix of the original queue in order and each client once, serves exactly those blocked on the type of the value, in blocking order, moves the others behind, and stops early only when the value is used up. |
| `BlockedClients.ThoseAll` | redis-stable/src/blocked.c:291-297 | Those served, or moved behind, are exactly the clients of the queue that wait, or do not wait, for that type. |
| `BlockedClients.ThoseInOrder` | redis-stable/src/blocked.c:287-326 | Both are in the order of the queue. |
| `BlockedClients.Server.ServeKey` | redis-stable/src/blocked.c:263-383 | A ready key is served, a list or sorted set used up is deleted, elements are conserved, and only served clients make new keys ready. |
| `BlockedClients.Server.DrainBatch` | redis-stable/src/blocked.c:254-263 | The batch is drained key by key while new keys may become ready; the dictionary covers batch and list without duplicates throughout. |
| `BlockedClients.Server.HandleClientsBlockedOnKeys` | redis-stable/src/blocked.c:246-383 | From any valid state it terminates, and every element of a list or sorted set is delivered once or still there. A key that then has elements and a client waiting for its type had both before and was not among the ready keys; from a settled state there is none. |
| `BlockedClients.Server.Push` | redis-stable/src/t_list.c:197-224 | The elements stand behind in order, or in front in reverse. A push keeps the state settled and makes no key forgotten; it signals a list that comes into being, and no other. |
| `BlockedClients.Server.BlockingPop` | redis-stable/src/t_list.c:686-740 | At the first key named that exists, the element at the end asked for is replied and leaves its list or sorted set, which is deleted if that was all, or a value of another type is refused. With no such key the client gets nil inside a transaction, and otherwise joins the end of every queue. A settled state stays settled, no key is forgotten and elements are conserved. |
| `BlockedClients.Server.Wait` | redis-stable/src/t_list.c:730-740 | A client that waits for keys none of which exists joins the end of their queues, keeps a settled state settled and makes no key forgotten. |
| `BlockedClients.Server.BRPopLPush` | redis-stable/src/t_list.c:750-777 | At once if the source exists, refused if either key is of the wrong type, nil inside a transaction, and otherwise blocked with its destination; a settled state stays settled, no key is forgotten and elements are conserved. |
| `BlockedClients.Server.RPopLPush` | redis-stable/src/t_list.c:565-603 | The last element of the source goes to the head of the destination, or rotates if they are the same list; an emptied source is deleted and a new destination signalled. |
| `BlockedClients.Server.RPopLPushHandlePush` | redis-stable/src/t_list.c:550-563 | The element stands in front of what the destination held; a destination that was missing is created and signalled. |
| `BlockedClients.Server.SetKey` | redis-stable/src/db.c:173-225 | A new key is added and signalled if it holds a list or a sorted set; an existing key is overwritten and never signalled. A settled state stays settled if and only if it is not an overwrite, with a list or sorted set, of a key at which a client waits for that type and which is not ready. |
| `BlockedClients.OverwriteSettled` | redis-stable/src/db.c:189-206 | The same on values: after an overwrite every key with elements and a client waiting for its type is ready if and only if the new value is neither list nor sorted set, nobody waits for its type at the key, or the key is ready. |
| `BlockedClients.OverwriteForgets` | redis-stable/src/db.c:189-206 | The failing input: one client waits for a list at a key that holds a string, and a list overwrites it. |
| `BlockedClients.OverwriteRun` | redis-stable/src/sort.c:565-569 | The failing run: BLPOP blocks, SET, SORT with STORE, RPUSH and the serving loop leave a list of two elements and the client still waiting for it. |
| `BlockedClients.ForgottenWithin` | redis-stable/src/blocked.c:246-335 | The state is settled if and only if no key is forgotten. |
| `BlockedClients.Server.PopNow` | redis-stable/src/t_list.c:701-726 | The plain pop: the element at that end is replied, the rest stays in order, an emptied key is deleted. |
| `BitCount.WordCounts` | redis-stable/src/bitops.c:66-80 | The shift-and-mask steps turn a 32-bit word into the counts of ones of its four bytes, packed. |
| `BitCount.TopByte` | redis-stable/src/bitops.c:80-86 | The multiplication adds four packed counts up in the top byte whenever their sum fits a byte. |
| `BitCount.PackedCounts` | redis-stable/src/bitops.c:57-80 | No lane holds more than eight, so seven words never overflow a lane. |
| `BitCount.CountChunk` | redis-stable/src/bitops.c:54-87 | One turn counts exactly the ones of its 28 bytes. |
| `BitCount.Popcount` | redis-stable/src/bitops.c:40-92 | For every length and starting alignment the result is the number of ones in the string. |
| `BitField.NumberSame` | redis-stable/src/bitops.c:229-241 | Equal bits make equal numbers, wherever they lie. |
| `BitField.GetUnsignedBitfield` | redis-stable/src/bitops.c:229-241 | The number in the field, first bit most significant; it is below 2^bits. |
| `BitField.ByteNumber` | redis-stable/src/bitops.c:229-241 | The eight bits of a byte, the first the most significant, read as that byte. |
| `BitField.SetBit` | redis-stable/src/bitops.c:213-220 | One bit is set and no other bit of the string changes. |
| `BitField.SetUnsignedBitfield` | redis-stable/src/bitops.c:209-222 | The field then holds the value modulo 2^bits, and no bit outside the field changes. |
| `BitFieldCommand.WrapSignedIs` | redis-stable/src/bitops.c:357-375 | Two's complement wrap-around lands in range, on the one value congruent modulo 2^bits. |
| `BitFieldCommand.StoredMeans` | redis-stable/src/bitops.c:288-375 | What should be stored: the value if it fits; else the wrapped value, the nearest that fits, or nothing. |
| `BitFieldCommand.GetSignedBitfield` | redis-stable/src/bitops.c:243-263 | The two's complement reading of the field. |
| `BitFieldCommand.SetSignedBitfield` | redis-stable/src/bitops.c:224-227 | The field reads back as the value, wrapped around to its width. |
| `BitFieldCommand.SignedIncrement` | redis-stable/src/bitops.c:325-375 | For every value that fits and every increment, the signed check stores the sum, or by overflow type the wrapped value, the nearest limit, or nothing. |
| `BitFieldCommand.UnsignedIncrement` | redis-stable/src/bitops.c:288-323 | The same for unsigned fields. |
| `BitFieldCommand.SignedSet` | redis-stable/src/bitops.c:325-375 | SET stores what it should if and only if it is not a saturating SET of a value so low that max - value wraps around; there it stores the greatest value. |
| `BitFieldCommand.UnsignedSet` | redis-stable/src/bitops.c:288-323 | SET stores what it should if and only if it is not a saturating SET of a negative value; there it stores the greatest value, not zero. |
| `BitFieldCommand.SaturatedSetBroken` | redis-stable/src/bitops.c:288-375 | The failing inputs: a saturating SET of -2^63 into a signed byte keeps 127 where -128 is right, and of -1 into an unsigned byte 255 where 0 is right. |
| `BitFieldCommand.SignedOp` | redis-stable/src/bitops.c:1018-1057 | INCRBY and SET on signed fields of width 1 to 63 at any offset: what is stored and what is replied, in the saturating SET that stores the wrong limit too, and that no bit outside the field changes. |
| `BitFieldCommand.UnsignedOp` | redis-stable/src/bitops.c:1058-1087 | The same for unsigned fields. |
| `BitFieldCommand.GetOp` | redis-stable/src/bitops.c:1089-1122 | GET through the nine-byte copy reads the string as if padded with zeros. |
| `BitPos.SkipUnaligned` | redis-stable/src/bitops.c:118-130 | Only bytes without a bit sought are skipped before the aligned address. |
| `BitPos.SkipWords` | redis-stable/src/bitops.c:132-142 | Only words without a bit sought are skipped. |
| `BitPos.LoadTail` | redis-stable/src/bitops.c:144-159 | The last word holds the next eight bytes, first byte most significant, padded with zeros. |
| `BitPos.ScanWord` | redis-stable/src/bitops.c:168-186 | The scan finds the first bit from the top; its final panic is unreachable. |
| `BitPos.WorthScanning` | redis-stable/src/bitops.c:161-166 | The word is free of bits sought only when a one is sought and the string has none. |
| `BitPos.Bitpos` | redis-stable/src/bitops.c:101-186 | For every length and alignment the result is the smallest index holding the bit; failing that -1 for a one and the length in bits for a zero. |
| `SlotIndex.PrefixContiguous` | redis-stable/src/db.c:1534-1538 | Entries that share a prefix are contiguous in byte order from the first entry not below it. |
| `SlotIndex.SeekFindsSlot` | redis-stable/src/db.c:1534-1536 | As long as a key of the slot is unseen, the entry at hand from the seek on belongs to the slot. |
| `SlotIndex.InsertedSorted` | redis-stable/src/db.c:1500-1501 | Insertion keeps the index ordered and adds exactly the entry. |
| `SlotIndex.RemovedSorted` | redis-stable/src/db.c:1502-1504 | Removal keeps it ordered and removes exactly the entry. |
| `Keyspace.Server.constructor` | redis-stable/src/db.c:1516-1521 | Empty databases, empty index and zero counters agree. |
| `Keyspace.Server.SlotToKeyUpdateKey` | redis-stable/src/db.c:1489-1506 | Index and counters follow one key added or removed. |
| `Keyspace.Server.DbAdd` | redis-stable/src/db.c:173-182 | Adding a key keeps the index exactly the slot-prefixed live keys and each counter the number of live keys of its slot. |
| `Keyspace.Server.DbOverwrite` | redis-stable/src/db.c:189-206 | Overwriting changes the value only. |
| `Keyspace.Server.DbSyncDelete` | redis-stable/src/db.c:271-281 | Deleting removes key, expire time and index entry together, or nothing. |
| `Keyspace.Server.SetKey` | redis-stable/src/db.c:216-225 | The key holds the value without an expire time, whether it was there, expired or not; the index agrees. |
| `Keyspace.Server.SlotToKeyFlush` | redis-stable/src/db.c:1516-1521 | Afterwards the index agrees with an empty database. |
| `Keyspace.Server.EmptyRange` | redis-stable/src/db.c:359-367 | Exactly the databases in range are emptied, and their keys counted. |
| `Keyspace.Server.EmptyDb` | redis-stable/src/db.c:342-377 | The databases named are emptied; the index, flushed whatever the range, agrees with database 0 if and only if that was in range or empty. |
| `Keyspace.Server.SelectDb` | redis-stable/src/db.c:379-384 | Selects exactly a database in range. |
| `Keyspace.Server.CreateClient` | redis-stable/src/networking.c:84-107 | A new client is on database 0. |
| `Keyspace.Server.Select` | redis-stable/src/db.c:506-522 | In cluster mode SELECT succeeds exactly for database 0, so every client stays there. |
| `Keyspace.Server.FlushDb` | redis-stable/src/db.c:432-439 | Empties the database of the client; index and counters agree with the keys. |
| `Keyspace.Server.FlushAll` | redis-stable/src/db.c:444-450 | Empties all databases; index and counters agree with the keys. |
| `Keyspace.Server.GetKeysInSlot` | redis-stable/src/db.c:1526-1541 | Only live keys of the slot, each once, as many as asked for or all there are. |
| `Keyspace.Server.CountKeysInSlot` | redis-stable/src/db.c:1566-1568 | The number of live keys of the slot. |
| `Keyspace.Server.DelFirstInSlot` | redis-stable/src/db.c:1554-1560 | One turn removes one key of the slot and lowers its counter. |
| `Keyspace.Server.DelKeysInSlot` | redis-stable/src/db.c:1545-1564 | It terminates, removes exactly the keys of the slot and returns their number. |
| `Geohash.DeinterleaveIs` | redis-stable/src/geohash.c:82-110 | deinterleave64 gives the even bits in the lower and the odd bits in the upper half. |
| `Geohash.DeinterleaveInterleave` | redis-stable/src/geohash.c:52-110 | deinterleave64 inverts interleave64 for all pairs of 32-bit numbers. |
| `Geohash.InterleaveDeinterleave` | redis-stable/src/geohash.c:52-110 | And the other way round, for all 64-bit hashes. |
| `Geohash.InterleavedBit` | redis-stable/src/geohash.c:47-51 | Bit i of a coordinate is bit 2i, or 2i + 1, of the hash, for every i. |
| `Geohash.CarryX` | redis-stable/src/geohash.c:229-237 | With all even bits set, adding one to the odd bits carries from each to the next: one is added to the longitude. |
| `Geohash.BorrowX` | redis-stable/src/geohash.c:234-237 | With none set, taking one away borrows the same way. |
| `Geohash.MasksAre` | redis-stable/src/geohash.c:227-237 | The shifted masks are the patterns of even and odd bits cut to 2 * step bits. |
| `Geohash.RaiseX` | redis-stable/src/geohash.c:224-242 | For every step, moving east adds exactly one modulo 2^step to the longitude and leaves the latitude. |
| `Geohash.LowerX` | redis-stable/src/geohash.c:224-242 | Moving west takes exactly one away, modulo 2^step, and leaves the latitude. |
| `Geohash.RaiseY` | redis-stable/src/geohash.c:244-260 | Moving north adds exactly one to the latitude and leaves the longitude. |
| `Geohash.LowerY` | redis-stable/src/geohash.c:244-260 | Moving south takes exactly one away and leaves the longitude. |
| `Geohash.RangeNumber` | redis-stable/src/geohash.c:224-260 | A coordinate is in range if and only if it is a number below 2^step, and the mask is 2^step - 1. |
| `Geohash.GridNumber` | redis-stable/src/geohash.c:224-260 | A hash is within its grid if and only if it is a number below 2^(2 * step). |
| `Geohash.MovedNumber` | redis-stable/src/geohash.c:224-260 | As integers: a move is the coordinate plus or minus one, modulo 2^step. |
| `Geohash.MovesCancelX` | redis-stable/src/geohash.c:224-242 | East and west cancel, both ways, on every hash of the grid. |
| `Geohash.MovesCancelY` | redis-stable/src/geohash.c:244-260 | North and south cancel likewise. |
| `Geohash.GeoHashBits.MoveX` | redis-stable/src/geohash.c:224-242 | In place: the longitude moves by the sign of d, the latitude stays, and the hash stays within its grid. |
| `Geohash.GeoHashBits.MoveY` | redis-stable/src/geohash.c:244-260 | In place: the latitude moves, the longitude stays. |
| `Geohash.GeohashNeighbors` | redis-stable/src/geohash.c:262-295 | Each of the eight neighbours is a new hash of the same step, within the grid, and lies where its name says; the hash itself is unchanged. |
| `Geohash.SidesDiffer` | redis-stable/src/geohash.c:262-295 | The cells to both sides differ from the cell, and from each other if and only if the step is at least two. |

## Left out

- The Python autoscaler and its configuration: thin calls to cloud services; it would only add easy members.
- RDB preamble, streams, modules and scripts in the append-only file.
- AofRewriter.RewriteValue: does not model streams and module values, whose commands have no semantics here.
- fsync itself and its background thread; whether a sync is in progress is a parameter.
- The child's own code in rewriteAppendOnlyFile is steps of `AofProtocol`, not a method: reading the pipe, asking, finishing and failing.
- File, fork and rename failures beyond the success or failure of the handler as a whole.
- Commands other than the expire family, SET, SETEX, PSETEX, DEL, SELECT, MULTI, EXEC and the four builders RPUSH, SADD, ZADD and HMSET have no semantics of their own.
- AofFeed.TranslateCorrect: deadlines that overflow a long long are not performed, and the DEL logged for a deadline in the past is never an UNLINK.
- Memory exhaustion in the loader.
- Handshake, gossip, failure detection, manual failover, replica migration and the cluster bus format.
- ClusterSlots.ClusterState.AddOrDelSlots: does not model the parsing of slot numbers and the refusal of repeated ones; it takes the set of slots named.
- ClusterSlots.ClusterState.UpdateSlotsConfigWith: reports the lost slots with keys and the new master, and leaves deleting keys and changing master to its caller.
- ClusterFailover.Elections.HandleSlaveFailover: the conditions on roles, configuration and age of the data are two parameters; logging and broadcasts are left out.
- ClusterElection.ElectionSafety: needs that elections start with no vote counted, because the property is false without it.
- Serving clients blocked on streams; those clients take part in queues and rotation.
- BlockedClients.Server.ServeKey: a sorted set used up is deleted when the loop ends, where the source deletes it with the pop that empties it and then ends the loop; streams are passed over.
- BlockedClients.Server.ZPop: scores stand behind the order of the members, and deleting a set used up is left to its callers.
- BlockedClients.Server.SetKey: does not model removing the expire time, and takes a list or sorted set that is not empty, as the commands that store one do.
- Other ways to replace a key (RENAME, RESTORE, MOVE, SWAPDB): the first three delete and add, the last rescans the lists.
- BlockedClients.Server.ProcessUnblockedClients: does not model what processing the pending input of a client does.
- What blocking commands and served clients propagate to the log and to replicas.
- Timeouts of blocked clients, and freeing a client: both call the unblocking that is modelled.
- BITFIELD on width 64, where the source shifts by 64, which C leaves undefined; parsing of BITFIELD arguments; growing the string before a write.
- BitCount.Popcount: the 256-entry table is modelled by what it tabulates, and words are loaded least significant byte first.
- CRC16 and hash tags: the slot of a key is any function into 0 to 16383.
- Keyspace.Server.DbSyncDelete: the asynchronous deletion has the same effect on dictionary and index and is not modelled apart.
- Expiration of keys on lookup, except as the flag of setKey; watched keys and keyspace events.
- Modules that select another database in cluster mode.
- The floating-point part of geohash encoding and decoding.

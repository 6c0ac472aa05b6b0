# opendht-sample, modelled in Dafny

The opendht sample is a small command-line node of the OpenDHT distributed hash
table. Everything about the hash table itself (routing, lookups, storage) is in
the external OpenDHT library. What the sample adds, and what this project models,
is a handful of sequential rules:

- **The interactive shell** (`src/main.cpp`). Each input line is read through a
  `std::stringstream`. `handleCommand` reads the first word, lowers it and
  dispatches `get`, `put`, `addr`, `help` or an unknown word. Arguments are read by
  `readArg`. It skips spaces and tabs (`discardBlanks`), then reads either a
  double-quoted string or a bare whitespace-delimited word. It returns `""` once
  the line is exhausted. `doGet` and `doPut` refuse empty keys and values before
  anything is sent.
  - `string_stream.dfy` models the string stream. The `StringStream` class holds a
    cursor and the `eofbit`/`failbit` flags. It follows the C++ standard library's
    rules for `peek`, `get`, `ignore(1)`, `>>` into a string, and `getline` with a
    delimiter. One difference: on a stream that is not good, `>>` and `getline` leave
    their target string as it was, while the model returns the empty string. The
    source always reads into a fresh, empty string, so it cannot tell the two apart.
  - `command_line.dfy` models the shell. `DiscardBlanks`, `ReadArg` and
    `HandleCommand` are methods over that stream. Each is proved against the pure
    functions `ArgStart`, `Arg`, `ArgEnd` and `ParseAt`.
  - What a line does is a list of `Effect`s: a message, or a request sent to the
    network.
  - `ParseRender` proves that parsing a rendered command gives the command back.
- **The connectivity-status filter** (`src/main.cpp`). The status callback prints
  the IPv4 status only when it differs from the global `previousV4Status`, which
  starts at `Disconnected`, and then stores it. `status_filter.dfy` models it as
  the `StatusPrinter` class. Its invariant ties the field and everything printed so
  far to the history of notifications.
- **The node order** `snode_compare` (`src/main.cpp`). Nodes are ordered by 160-bit
  identifier, and an IPv4 node comes before an IPv6 node with the same identifier.
  `node_order.dfy` proves it is a strict total order.
- **The network scan** (`src/main.cpp`, `step`). Each step computes a bucket depth
  from the nodes returned for its hash, a target depth, and one child step per bit
  position.
  - `network_scan.dfy` states this expansion rule and defines the whole scan tree
    for a given lookup function.
  - It proves that the recursion terminates, since depth strictly increases and is
    bounded by 159.
  - It proves that the scan never looks up the same hash twice.
- **The `run` command of the build scripts** (`buildtools/run_command.py`).
  `filter_arguments` splits the command line at the first `run` and cuts `sys.argv`
  back in place. `find_program` looks up a registered program path.
  `add_program_taskgen` registers one. `run` builds the shell command, quoting
  arguments that contain a space. `run_command.dfy` models the `RunCommand` object
  as a class, and `sys.argv` as an `ArgVector` object that
  `FilterArguments` modifies.

Modules: `Wrappers` (Option, Result), `CType` (the C locale's `isblank`, `isspace`,
`tolower`), `Stream`, `CommandLine`, `StatusFilter`, `NodeOrder`, `NetworkScan`,
`RunCommand`.

## Model

| member | source | states |
|---|---|---|
| Stream.StringStream.constructor | src/main.cpp:101 | a stream on a line starts at its first character with no flag set |
| Stream.StringStream.Peek | src/main.cpp:110 | returns the next character only on a good stream with characters left, without moving; a stream that is not good gets failbit, and peeking at the end sets eofbit |
| Stream.StringStream.Get | src/main.cpp:111 | extracts exactly the next character and advances by one; at the end it sets eofbit and failbit and returns nothing |
| Stream.StringStream.IgnoreOne | src/main.cpp:125 | discards one character when there is one; at the end only eofbit is set |
| Stream.StringStream.ExtractWord | src/main.cpp:129 | `>>` into a string: skips leading whitespace and returns the characters up to the next whitespace, which stays unread; eofbit when it reached the end, failbit exactly when nothing was extracted |
| Stream.StringStream.GetLine | src/main.cpp:126 | returns the text up to the delimiter or the end of the line, never containing the delimiter; consumes the delimiter; eofbit when the end was reached, failbit only when nothing at all was left |
| Stream.WordShape | src/main.cpp:128-130 | a word extracted by `>>` is the line's text from the first non-whitespace character after the cursor, with only whitespace skipped before it; it holds no whitespace, is empty exactly when only whitespace is left, and ends at whitespace or at the end of the line |
| CommandLine.DiscardBlanks | src/main.cpp:108-113 | on a good stream the cursor ends at the first character that is not a space or tab (or at the end, setting eofbit); a stream that is not good is left as it was |
| CommandLine.ReadArg | src/main.cpp:115-133 | the argument read and the cursor left are `Arg` and `ArgEnd` of the starting position; the stream stays good while characters remain |
| CommandLine.ArgOfBlankRest | src/main.cpp:118-122 | when only spaces and tabs remain, the argument is `""` and the line is exhausted |
| CommandLine.QuotedArgShape | src/main.cpp:124-126 | after skipping blanks, a quoted argument is the text after the opening quote up to the next quote or the end of the line; it never contains a quote but may contain blanks |
| CommandLine.BareArgShape | src/main.cpp:128-130 | an unquoted argument is the line's text ending where the cursor is left, with only whitespace between the starting cursor and it and a non-whitespace character at its start; it is a maximal run of non-whitespace characters: no blank or other whitespace inside, ends at whitespace or the end, and is empty only when nothing but whitespace is left |
| CommandLine.Arg | src/main.cpp:115-133 | the argument `readArg` returns from a cursor is never longer than what is left of the line, and is empty when only blanks are left |
| CommandLine.ArgEnd | src/main.cpp:115-133 | the cursor `readArg` leaves never moves back and never passes the end of the line |
| CType.Lower | src/main.cpp:139 | lowering keeps the length and maps each character through `tolower`, which leaves no upper-case letter and changes only A-Z |
| CommandLine.ParseAt | src/main.cpp:137-165 | an unknown command carries the lowered first word, which is none of get, put, addr, help; get takes its key from the first argument after the word; put takes its key from there and its value from where the key ended |
| CommandLine.DoGet | src/main.cpp:176-180 | exactly one effect; a get is issued, for that key, exactly when the key is non-empty |
| CommandLine.DoPut | src/main.cpp:206-214 | exactly one effect; a put is issued, for that key and value, exactly when both are non-empty; an empty key is reported whatever the value |
| CommandLine.Execute | src/main.cpp:141-165 | one or two effects; the command listing is shown exactly for help and unknown words; the first effect is an "unknown command" report exactly for unknown words |
| CommandLine.RequestsNeedArguments | src/main.cpp:176-180 | a get is issued exactly when the key is non-empty; a put is issued exactly when key and value are non-empty, and an empty key is reported before the value is looked at |
| CommandLine.DispatchOnFirstWord | src/main.cpp:137-164 | the first word is compared after lowering; `put` reads the key, then the value from where the key ended; the command listing is shown exactly for words other than get/put/addr, and "unknown" is reported exactly for those other than help too; no request ever carries an empty argument |
| CommandLine.HandleCommand | src/main.cpp:135-166 | the effects of handling the line are those of the command `ParseAt` selects from the cursor |
| CommandLine.ParseRender | src/main.cpp:115-154 | a command rendered as a line, its arguments in double quotes, is parsed back to the same command |
| StatusFilter.Printed | src/main.cpp:58-61 | no more statuses are printed than notifications were delivered |
| StatusFilter.PrintedHasNoRepeats | src/main.cpp:47-61 | consecutive printed statuses always differ, the first differs from Disconnected, the last is the stored status, and every printed status was delivered |
| StatusFilter.SameStatusTwicePrintsOnce | src/main.cpp:58-61 | delivering the same IPv4 status twice in a row prints no more than delivering it once |
| StatusFilter.IPv6Ignored | src/main.cpp:54-61 | histories with the same IPv4 statuses print the same, whatever the IPv6 statuses |
| StatusFilter.StatusPrinter.constructor | src/main.cpp:47 | the stored status starts at Disconnected, with nothing delivered and nothing printed |
| StatusFilter.StatusPrinter.OnStatusChanged | src/main.cpp:54-62 | prints the IPv4 status exactly when it differs from the stored one, stores it, and keeps the invariant tying the stored status and the output to the history |
| NodeOrder.Less | src/main.cpp:26-31 | `snode_compare`: a node is never ordered before itself, and an ordered pair never has its identifiers in the opposite order |
| NodeOrder.CommonBits | src/main.cpp:329 | the count of leading bits two identifiers share: they agree below it and differ at it |
| NodeOrder.IdLessAtFirstDifference | src/main.cpp:28 | one identifier is below another exactly when it has a 0 bit where they first differ |
| NodeOrder.IdLessIsStrictTotal | src/main.cpp:28 | the identifier order is irreflexive, asymmetric, transitive and total on different identifiers |
| NodeOrder.LessIsStrictTotal | src/main.cpp:26-31 | `snode_compare` is irreflexive, asymmetric and transitive, and orders any two different nodes one way or the other |
| NodeOrder.LessOnDifferentIds | src/main.cpp:28 | nodes with different identifiers are ordered by identifier alone |
| NodeOrder.LessOnEqualIds | src/main.cpp:29 | with equal identifiers, exactly an IPv4 node before an IPv6 node is ordered |
| NetworkScan.SetBit | src/main.cpp:333-334 | the new hash has bit b set and every other bit unchanged |
| NetworkScan.ScanStart | src/main.cpp:239-240 | the starting hash has its last bit set and every other bit clear |
| NetworkScan.BucketDepth | src/main.cpp:327-329 | the bucket depth never exceeds the 160 bits of an identifier |
| NetworkScan.TargetDepth | src/main.cpp:330 | the target depth is min(159, bucket depth + 3): at most both, and equal to one of them |
| NetworkScan.Expand | src/main.cpp:328-336 | an empty answer spawns nothing, and every child spawned is deeper than its parent and at most 159 deep |
| NetworkScan.Smallest | src/main.cpp:329 | the first node of the ordered set is in the answer and below every other node |
| NetworkScan.Largest | src/main.cpp:329 | the last node of the ordered set is in the answer and above every other node |
| NetworkScan.BucketDepthIsShared | src/main.cpp:327-329 | the bucket depth is at most 160, and every node of the answer shares those leading bits |
| NetworkScan.Children | src/main.cpp:332-336 | one child per bit position from the current depth up to the target, in order: the hash with that bit set, one bit deeper |
| NetworkScan.ExpansionRule | src/main.cpp:328-336 | no children for an empty answer; target is min(159, bucket depth + 3); for each b below 159, the child (hash with bit b set, depth b+1) is spawned exactly when current depth <= b < target; none when the current depth reaches the target; every child is deeper than its parent and at most 159 deep |
| NetworkScan.Scan | src/main.cpp:318-342 | the scan from a step starts with that step, and every step in it is at least as deep as it and at most 159 deep, so the recursion ends |
| NetworkScan.ScanEach | src/main.cpp:332-336 | the scans of the children of a step are all strictly deeper than it and at most 159 deep |
| NetworkScan.ScanKeepsPrefix | src/main.cpp:332-336 | every step under a step at depth d keeps the first d bits of its hash |
| NetworkScan.ScanHasNoRepeats | src/main.cpp:318-342 | a scan from a hash whose bits from the current depth on are clear never looks up the same hash twice |
| NetworkScan.FullScanHasNoRepeats | src/main.cpp:239-245 | the scan started from the hash with only its last bit set, at depth 0, never looks up a hash twice and goes no deeper than 159 |
| RunCommand.IndexOfRun | buildtools/run_command.py:96 | the index of the first "run" |
| RunCommand.SplitArguments | buildtools/run_command.py:90-106 | no split exactly when "run" is absent; a missing program exactly when the first "run" is last; otherwise the kept prefix ends at the first "run", and kept + [program] + args is the original command line |
| RunCommand.SplitIsAtFirstRun | buildtools/run_command.py:96-103 | with i the first "run" and a name after it, the program is argv[i+1], the arguments argv[i+2:] and the kept list argv[:i+1] |
| RunCommand.FindProgram | buildtools/run_command.py:84-88 | a registered name gives its registered path; any other name comes back unchanged |
| RunCommand.Register | buildtools/run_command.py:109-111 | at most the target name is added, and every other registered name keeps its path |
| RunCommand.RealProgram | buildtools/run_command.py:72-73 | the program found by name, made relative when it is absolute and kept as it is otherwise |
| RunCommand.RegisterThenFind | buildtools/run_command.py:84-88 | after registering a task generator with link outputs, its target finds the first output and is the only key added; without outputs nothing changes; the lookup of every other name is unchanged |
| RunCommand.QuoteArgs | buildtools/run_command.py:75 | the argument count is kept; arguments without a space pass through verbatim and exactly those with a space are replaced by their quoted form |
| RunCommand.JoinSplit | buildtools/run_command.py:78 | joining with single spaces undoes splitting at single spaces |
| RunCommand.SplitJoin | buildtools/run_command.py:78 | splitting at spaces undoes joining with single spaces when no part holds a space |
| RunCommand.CommandShape | buildtools/run_command.py:75-78 | the command is the program, then a single space and the joined arguments when there are any; with no spaces anywhere, splitting the command at spaces gives back the program and the arguments |
| RunCommand.ArgVector.constructor | buildtools/run_command.py:91 | the argument vector holds the given command line |
| RunCommand.RunCommand.constructor | buildtools/run_command.py:59-63 | no programs, no program to run, no arguments, not registered |
| RunCommand.RunCommand.FilterArguments | buildtools/run_command.py:90-106 | without "run" nothing changes; with "run" last the lookup fails and nothing changes; otherwise the program, arguments and truncated command line are those of `SplitArguments`; the programs are never touched |
| RunCommand.RunCommand.AddProgramTaskgen | buildtools/run_command.py:108-111 | the programs become `Register` of the old programs and the task generator; nothing else changes |
| RunCommand.RunCommand.Run | buildtools/run_command.py:71-78 | without a program name the run fails; otherwise the command is the real program (found, made relative when absolute) followed by the quoted arguments, joined by single spaces |

## Left out

- Every call into the OpenDHT library is left out: `node.run`, `bootstrap`, `get`, `putSigned`, `getPublicAddress`, the msgpack serialisation and `unpack`. It is foreign code. A request is recorded as an `IssueGet`/`IssuePut` effect, and the scan's lookups are a function `lookup` passed in.
- Concurrency in the scan is left out: the atomic `done` counter, the condition variable, `sleep_for` and the asynchronous callbacks. `Scan` lists the steps in the order a depth-first run of the callbacks would issue them. The network may complete them in another order.
- `all_nodes` in the scan is left out. It only accumulates the answers for printing.
- Terminal and socket I/O is left out: the stdin loop of `processInput`, all printing (`printCommands`, `printAddresses`, `operator<<` for statuses and hashes) and `addrToString`. What gets printed is an `Effect` or the `Output` sequence of `StatusPrinter`.
- `previousV4Status` is `volatile` and written from the node's thread. The model assumes the callbacks arrive one at a time.
- CommandLine.ReadArg: when the line is exhausted, the contract does not state the exact combination of eofbit and failbit left behind, only that the stream is good while characters remain.
- The stream's badbit and exceptions are left out. Neither can arise on an in-memory string stream.
- Address families: only `AF_INET` and `AF_INET6` are modelled. Nodes returned by the engine always carry one of these families.
- `os.path.isabs`, `os.path.relpath` and `pipes.quote` are treated as given functions, passed as parameters. Their behaviour belongs to the Python library.
- `subprocess.call(cmd, shell=True)` and `Logs.pprint` are left out. `Run` returns the command instead of running it.
- The model stops at the string handed to the shell. `SplitOnSpaces` is splitting at single spaces, not the shell's word splitting. The shell also splits at tabs and newlines and interprets quotes, `$`, `;`, `*` and other metacharacters. The source quotes only arguments that contain a space, so such an argument (`a<TAB>b`, `$HOME`) can reach the program changed. The model promises nothing about that.
- Characters: a Dafny `string` holds Unicode scalar values, while the C++ line and the Python 2 strings are bytes. Every character class the model uses (`isblank`, `isspace`, `tolower`, `"`, the space) is ASCII, so the behaviour is the same on UTF-8 input.
- The Waf integration of the build script is left out: `options`, `configure`, `register_programs`, `RunContext`, the `MetaSingleton` metaclass and the task generator objects. Only their `target` and first link output are modelled.
- `conanfile.py` is not part of this model. It is a build recipe with no logic of its own.
- RunCommand.RunCommand.Run: without a program name the source fails inside `os.path.isabs(None)`. The model returns the `NoProgramGiven` error instead.
- RunCommand.RunCommand.FilterArguments: with "run" as the last argument the source raises `IndexError`. The model returns the `MissingProgramName` error with nothing changed, which is the state the exception leaves behind.

# A verified model of xcore-bridge

xcore-bridge keeps VLESS policies in a Surge profile, runs one local SOCKS5 server for each of them, and upgrades
itself. This project models four parts of it in Dafny and proves what they keep.

**The profile editor** (`internal/surge`). A text file is a database of managed policies: lines inside a block between
two marker comments in the `[Proxy]` section. `Install`, `Add`, `Remove`, `Rename` and `Replace` find the section, cut
the block out, edit its lines and splice it back; `ManagedPolicies` reads it again.

- Text, Quoting, Fields, Names, Ports, PortScan: strings, `strconv.Quote`, the field splitter, names, the port
  allocator, and the regular expression that scans for ports, as an explicit scanner.
- Lines, RoundTrip, Readings, Renaming: the printer and the parser of a managed line, how they agree, and what each
  says about the fields of a line, by their positions.
- HandWritten, Beside: lines that somebody typed, which of their ports the scanner sees, and what edits do to them.
- Sections, Slices, Blocks, Profile, Markers: finding, cutting and splicing, over lists of lines and over Go slices
  with shared buffers; what any edit keeps and what the next reader finds, with any marker lines.
- Edits, Editor: the five edits as functions on profile texts, and as the imperative code, which computes them.
- Managed, Refinement, Effects, Runs: the invariant, what each edit does to the list of policies, and whole runs.
- Files: the same edits on disk, cut at any step.

The invariant is `Managed.Manages(text, profile, entries)`: the section holds at most one closed block and no open
begin marker; the block holds exactly the printed lines of the entries; names and ports of the entries are distinct
from each other and from all names and ports on unmanaged lines; and every entry is one whose line reads back. It is
what "usual" inputs establish and every edit keeps: links as `vless.Parse` returns them (trimmed, starting with
`vless://`), an exec path that is empty or not blank, and a profile path other than `--link` and `--listen`.

**The ownership protocol** (`cmd/xcore-bridge/policy_runtime.go`). Any number of foreground processes race for a file
lock, publish a record in the lock file, run a server, stand by and take over. Records holds the record and its
decoder; Ownership is the step system, in which truncating and every written character are steps of their own and a
process can crash between any two; Takeover states what holds in all reachable states; PolicyRuntime is the object
and the polling loop of one process.

**Version order** (`cmd/xcore-bridge/upgrade.go`). Versions holds the parser, the comparison, the selection of a
release and the check of an exact upgrade; SemVer writes down section 11 of Semantic Versioning 2.0.0 on its own and
relates the two.

**Routing** (`internal/bridge/config.go`, `internal/daemon/daemon.go`). Routing builds the server configuration from
the managed policies and follows a connection through inbounds, rules and outbounds.

Where the source changes things step by step the model does too: methods with loops, a class for the file system, the
lock file and the runtime object, slices with shared buffers. Each such method is proved to compute a function, and the
lemmas are about that function.

Running `dafny verify dfyconfig.toml` checks everything.

## What came out

- A printed line does not read back as its policy for the profile paths `--link` and `--listen`, and for no other path
  (`RoundTrip.ParseOfLine`). The path `--local-port` takes the port option from the command line: then a line whose port
  field was edited by hand is accepted with any port (`HandWritten.TypedPorts`).
- `Replace` does not always write the exec path back as it was: it trims white space around it, and for a policy named
  "exec", which reads its own name as the exec path, it writes `external` (`Refinement.ReplaceKeepsExec`). A line with
  that name and a blank exec path is accepted until it is renamed (`Refinement.NamedExec`, `Renaming.RenameAnyLine`).
- `Replace` always writes the default host; a line that listens elsewhere changes more than its link
  (`Refinement.ReplaceAnyLine`, `Beside.HostIsLost`).
- An unclosed begin marker makes the next reader take unmanaged lines for managed ones (`Markers.ReadsBackExactly`), and
  every edit drops the lines of a second block with content (`Markers.KeepsAllExactly`, `Markers.SecondBlockIsLost`).
- On lines typed by hand the port scanner can miss the port of an accepted line, because of a sign, of white space that
  `\s` does not match, or of a port field just before (`HandWritten.TypedPorts`), and then Add can hand out that port
  again (`Beside.AddKeepsOffExactly`, `Beside.SomeAddTakesKeptPort`). On printed lines the scanner is sound.
- Each edit that writes a block adds a blank line before it, so frames hold up to blank lines.
- A prerelease number that does not fit an int is compared as text (`SemVer.AgreesExactlyIfFits`).

## Model

| member | source | states |
|---|---|---|
| `Quoting.UnquoteOfQuote` | internal/surge/line.go:82-84 | reading a quoted value gives back the value, for every string, whatever quotes, backslashes, control or wide characters it holds |
| `Quoting.PlainIsKept` | internal/surge/line.go:82-84 | printable ASCII text without quotation marks and backslashes is quoted as it is |
| `Fields.SplitProxyFields` | internal/surge/proxy_parse.go:238-264 | the one-pass loop with a field start and two flags computes the recursive splitter |
| `Fields.SplitOfJoinedFields` | internal/surge/proxy_parse.go:238-272 | splitting undoes joining with ", " for every list of fields that keep their commas inside quotes |
| `Fields.SplitUnquoted` | internal/surge/proxy_parse.go:238-272 | text without quotation marks is cut at every comma, backslashes having no effect, and an open quotation mark keeps all that follows in its field |
| `Lines.ProxyLine` | internal/surge/line.go:29-68 | error for an invalid node or port, else the line of the entry for the options, built by appending arguments and fields; what that line says is `Readings.PrintedLine` |
| `Readings.PrintedLine` | internal/surge/line.go:29-68 | the printed line, split again, field by field: the requested name or else the display name, the exec path or its default, one `args` field for each word of the command line (so they unquote to it), the port, UDP relay directly behind it, and `addresses = a` exactly when the node has that address |
| `Lines.ManagedPolicy` | internal/surge/proxy_parse.go:102-176 | the loop over fields computes the parser that the lemmas are about; when that accepts is `Readings.AcceptedExactly` |
| `Readings.AcceptedExactly` | internal/surge/proxy_parse.go:102-213 | for every line and policy: the parser gives that policy if and only if the positions of the fields and arguments say so (last legal port, last host, first exec path, `run` first, first `--link` or else first VLESS argument, and the host and port of the command, where named, those of the fields) |
| `Lines.RunListenArgs` | internal/surge/proxy_parse.go:215-236 | the index loop with its skips reads the last --listen and the last valid --local-port |
| `Readings.PiecesRead` | internal/surge/proxy_parse.go:215-236 | every argument list falls into options with values and words, and the host and port read are those of its last `--listen` and of its last `--local-port` with a legal number |
| `RoundTrip.FieldsComeBack` | internal/surge/proxy_parse.go:238-264 | splitting a printed line returns exactly the fields that were joined, whatever the link, the exec path and the profile path contain |
| `RoundTrip.ParseOfLine` | internal/surge/proxy_parse.go:102-176 | parsing a printed line gives the policy it was printed for if and only if the profile path is neither `--link` nor `--listen` and the exec path is not blank (or the name is "exec") |
| `RoundTrip.LineIsOneLine` | internal/surge/line.go:29-68 | a printed line holds no newline, so it stays one line of the file |
| `RoundTrip.ScannerSound` | internal/surge/proxy_parse.go:274-291 | the port scanner, which ignores quotes, reports the own port of every printed line |
| `PortScan.LocalPorts` | internal/surge/proxy_parse.go:276-291 | the map filled line by line and match by match holds exactly the captured ports in range |
| `PortScan.CaptureReached` | internal/surge/proxy_parse.go:274-291 | the leftmost non-overlapping scan reaches every comma that follows neither a digit nor white space and starts a match, whatever was matched before |
| `PortScan.OwnPortReported` | internal/surge/proxy_parse.go:274-291 | a port field after a closing quote is reported even if the quoted text looks like port fields |
| `HandWritten.TypedPorts` | internal/surge/proxy_parse.go:102-176 | a line with a printed front and any list of typed port fields (any white space, case and sign) is accepted if and only if its last port is that of the command line, or the profile path `--local-port` takes that option away, and then with the last port; and the scanner reports exactly the clean fields, skipping the one behind each that it reports |
| `Beside.ListenAgrees` | internal/surge/proxy_parse.go:153-163 | a printed line with `--listen` on its command line and any host field is accepted if and only if the two agree or the command names no host |
| `HandWritten.OneTypedPort` | internal/surge/proxy_parse.go:274-291 | with one port field the scanner reports the port of an accepted line if and only if the number has no sign and all white space in the field is that of the regular expression |
| `HandWritten.SignedPortMissed` | internal/surge/proxy_parse.go:274-291 | for every entry, an accepted line whose port the scanner misses because of a plus sign |
| `HandWritten.AdjacentPortMissed` | internal/surge/proxy_parse.go:274-291 | for every entry, an accepted line whose port the scanner misses because the field before it took the comma |
| `HandWritten.CleanPortReported` | internal/surge/proxy_parse.go:274-291 | for every line that is no comment, whatever else it holds: a clean port field behind a comma that follows neither a digit nor white space is reported, up to the next comma, `#`, `;` or the end |
| `HandWritten.StartPortReported` | internal/surge/proxy_parse.go:274-291 | a clean port field with which a line starts is reported too |
| `HandWritten.CommentAddsNothing` | internal/surge/proxy_parse.go:49-60 | a comment or blank line among others adds no name and no port, whatever stands in it, and is no policy |
| `Beside.AddKeepsOffExactly` | internal/surge/install.go:65-80 | on any profile whose kept lines are accepted, Add hands out the port of no kept policy, for all usual options, if and only if each such port is among the scanned ones |
| `Beside.SomeAddTakesKeptPort` | internal/surge/install.go:65-80 | a profile and usual options with which Add gives a new policy the port of a kept one |
| `Names.SanitizeFixes` | internal/surge/line.go:70-80 | sanitizing fixes exactly the clean names, and is idempotent |
| `Names.SanitizeRules` | internal/surge/line.go:70-80 | for any text: white space around it does not matter, a maximal run of other characters counts as one hyphen, two blanks count as one; with `Names.SanitizeFixes` these rules fix every result |
| `Names.SanitizeIsClean` | internal/surge/line.go:70-80 | every sanitized name is clean: name characters only, trimmed, no double blank |
| `Names.ProxyNames` | internal/surge/proxy_parse.go:83-100 | the loop collects the names of the proxy lines in order |
| `Names.TakenBound` | internal/surge/proxy_parse.go:62-72 | pigeonhole: at most as many candidates are taken as there are names |
| `Names.UniqueIsFree` | internal/surge/proxy_parse.go:62-72 | the unique name is the sanitized request, or "xcore-bridge" when nothing is left of it; if that is taken, the same with the least free number from 2 on, found within one more try than there are names; it is free and clean |
| `Names.UniqueName` | internal/surge/proxy_parse.go:62-72 | the loop ends and returns the name of `Names.UniqueIsFree` |
| `RoundTrip.NameOfLine` | internal/surge/proxy_parse.go:49-60 | the name read from a line is the clean name it was written with |
| `RoundTrip.NameOfAnyLine` | internal/surge/proxy_parse.go:49-60 | the name of any line is the sanitized text before its first `=`, unless it is a comment; a line without `=` has none |
| `Ports.FindAvailablePort` | internal/surge/ports.go:49-68 | the counting loop returns the least usable port from the start on, or fails when there is none |
| `Ports.SubtractPorts` | internal/surge/ports.go:70-78 | the loop over a map, in any order, leaves the ports that are not reserved |
| `Ports.UsablePortsExact` | internal/surge/ports.go:49-68 | the list of usable ports is ascending and holds exactly the unused ports that are reusable or available |
| `Ports.AllocateExact` | internal/surge/install.go:74-85 | the greedy loop hands out the k smallest usable ports and fails exactly when there are fewer, also past port 65535 |
| `Sections.SectionBounds` | internal/surge/profile.go:26-45 | the two loops find the section and its end |
| `Sections.HeadersExactly` | internal/surge/profile.go:73-79 | a line is a header exactly when it is text in brackets, perhaps behind a byte order mark, with white space around it, under its name in lower case |
| `Sections.BoundsOfParts` | internal/surge/profile.go:26-45 | a file put together from parts is cut into the same parts again |
| `Sections.InsertedIsValid` | internal/surge/profile.go:47-71 | an inserted section is found again and holds only blank lines |
| `Sections.InsertPlace` | internal/surge/profile.go:47-60 | a missing section goes to the end of [General], else before the first [Proxy Group] or [Rule], else to the end |
| `Editor.InsertProxySection` | internal/surge/profile.go:47-71 | choosing the place, building the header block and splicing in place give the file with the inserted section and its bounds |
| `Slices.Splice` | internal/surge/profile.go:68-68 | the nested appends over shared buffers equal a functional splice: no line is lost or overwritten |
| `Blocks.RemoveManagedProxyBlock` | internal/surge/profile.go:81-97 | the copy loop with its jump leaves the section without its closed blocks, everything else unchanged, and finds the section again |
| `Blocks.CleanedValid` | internal/surge/profile.go:81-97 | cutting blocks out keeps the start of the section and makes no header |
| `Blocks.StripTwice` | internal/surge/profile.go:81-97 | cutting blocks out is idempotent, for any markers in any order |
| `Refinement.SectionSurvivesCleanup` | internal/surge/install.go:57-59 | after the cut the section starts where it did and is shorter by what was cut, so the error there is unreachable |
| `Blocks.ManagedProxyBlock` | internal/surge/profile.go:99-110 | the search returns the content of the first block if it is closed, and nothing else |
| `Blocks.RenderManagedProxyBlock` | internal/surge/profile.go:124-147 | moving up over blank lines, building the block and splicing it into the shared buffer give the joined lines of the section with the block |
| `Profile.EditWrites` | internal/surge/profile.go:124-147 | the lines of the file after any edit, one by one: those before the section, its header, the unmanaged lines up to the last that is not blank, the block with its blank lines, the trailing blank lines, those after the section, and a final empty line if there was none |
| `Profile.ShapeFacts` | internal/surge/profile.go:81-110 | of a section with one closed block the reader sees the content and the cut leaves what is around it |
| `Profile.EditFrames` | internal/surge/profile.go:81-147 | an edit keeps all lines up to the header and after the section, and the unmanaged non-blank lines in order, and the next reader finds exactly the rendered lines |
| `Profile.EditPlaces` | internal/surge/profile.go:124-147 | whatever markers the section had: afterwards its non-blank lines are the unmanaged ones in order, and behind them one block with just the rendered lines |
| `Markers.EditReads` | internal/surge/profile.go:81-147 | for any profile, with any markers: the next reader finds the rendered lines behind the lines that an unclosed begin marker swallowed |
| `Markers.ReadsBackExactly` | internal/surge/profile.go:81-147 | so an edit reads back exactly when no unclosed begin marker stands above a line with content |
| `Markers.KeepsAllExactly` | internal/surge/profile.go:81-110 | for any section: the lines that Add keeps are the content of all closed blocks, which the cut removes, if and only if no closed block with content stands below the first one |
| `Editor.ManagedPolicies` | internal/surge/proxy_parse.go:11-37 | the reader with its loops computes the answer or the error of `Effects.ReadExactly` |
| `Effects.ReadExactly` | internal/surge/proxy_parse.go:11-37 | on any profile: one policy for each line of the block, if there are any and all are accepted; else the error that says what is missing or wrong |
| `Editor.Install` | internal/surge/install.go:17-113 | install with its checks, loops and splices computes the edit that the lemmas are about, error for error |
| `Editor.GenerateLines` | internal/surge/install.go:71-99 | the node loop that updates names, ports and lines computes the new entries |
| `Editor.Remove` | internal/surge/remove.go:9-66 | Remove computes the edit that the lemmas are about |
| `Editor.Rename` | internal/surge/rename.go:9-69 | Rename computes the edit that the lemmas are about |
| `Editor.Replace` | internal/surge/replace.go:9-83 | Replace computes the edit that the lemmas are about |
| `Managed.GenerateNew` | internal/surge/install.go:71-99 | the node loop makes one sound entry for each node, with new names and ports, distinct from each other and from all in use |
| `Refinement.InstallNames` | internal/surge/install.go:71-81 | on any profile, with any options, the i-th reported name is the i-th override, or display name without overrides, sanitized, or "xcore-bridge"; if that is an unmanaged name, a kept one or one reported before, with the least free number from 2 on |
| `Managed.EditManages` | internal/surge/profile.go:81-147 | a rewritten section manages exactly the entries that were rendered |
| `Refinement.InstallRefines` | internal/surge/install.go:17-113 | Install replaces the managed entries, Add appends to them, one for each node in order, with the requested names, made free, and the reported ports |
| `Refinement.InstallPorts` | internal/surge/install.go:71-99 | install reports the first usable ports from the base on and fails with "no port" exactly when there are too few |
| `Refinement.RemoveRefines` | internal/surge/remove.go:9-56 | Remove filters the entries by name and reports the removed names |
| `Refinement.RenameRefines` | internal/surge/rename.go:9-69 | Rename changes one name, to the requested one made free of all other names, and nothing else |
| `Refinement.ReplaceRefines` | internal/surge/replace.go:9-83 | Replace changes one link; name, port and place stay |
| `Effects.InstallLists` | internal/surge/install.go:17-113 | ManagedPolicies answers with the old list (Add) or nothing (Install) followed by one policy for each node, under the requested name made free of all others |
| `Effects.InstallSucceeds` | internal/surge/install.go:17-99 | under the invariant install succeeds exactly for a legal base port, at least one node, no or as many names, only valid nodes and enough usable ports; else the error is the first of these that fails |
| `Effects.RemoveLists` | internal/surge/remove.go:9-56 | ManagedPolicies answers with the other policies in order, and fails when none is left; a request means the policy whose name it is once sanitized, and exactly the names so meant are reported |
| `Effects.RenameLists` | internal/surge/rename.go:9-69 | ManagedPolicies answers with the same list, one name changed: to the requested one, sanitized, when no other policy and no unmanaged line has it, else that with the least free number from 2 on |
| `Effects.ReplaceLists` | internal/surge/replace.go:9-83 | ManagedPolicies answers with the same list, one link changed, on the reported port |
| `Effects.RemoveSucceeds` | internal/surge/remove.go:9-56 | under the invariant Remove succeeds exactly when some request, sanitized, is the name of a policy; else which error it reports |
| `Effects.RenameSucceeds` | internal/surge/rename.go:9-69 | under the invariant Rename succeeds exactly when the old name exists and the new one is not empty; else which error it reports |
| `Effects.ReplaceSucceeds` | internal/surge/replace.go:9-83 | under the invariant Replace succeeds exactly when the node is valid and the name exists; else which error it reports |
| `Renaming.RenameOfLine` | internal/surge/rename.go:71-78 | renaming a printed line gives the line printed with the new name |
| `Renaming.RenameAnyLine` | internal/surge/rename.go:71-78 | renaming any accepted line changes only the name of its policy, exactly when another exec path than its own name is left to read |
| `Refinement.ReplaceAnyLine` | internal/surge/replace.go:41-65 | Replace on any accepted line keeps name and port, sets the link, and sets the host to 127.0.0.1, so it changes only the link exactly when the line listened there |
| `Refinement.ReplaceKeepsExec` | internal/surge/replace.go:50-65 | Replace writes the exec path of an accepted printed line back as it was if and only if it has no white space around it, or, for a policy named "exec", if and only if it was "external" |
| `Beside.HostIsLost` | internal/surge/replace.go:41-65 | a printed line with any local-host field behind it is accepted with that host, and Replace sets its host to 127.0.0.1 |
| `Runs.StepManages` | internal/surge/install.go:17-113 | every edit, successful or not, keeps the invariant |
| `Runs.RunManages` | internal/surge/install.go:17-113 | over every run of edits the profile manages a list of sound entries with distinct names and ports |
| `Runs.RunFromFresh` | internal/surge/install.go:17-113 | from any profile without markers in [Proxy]: after every run at most one closed block and no open marker, every managed line a printed line, names and ports distinct from each other and from all unmanaged ones, and the reader answers with these policies |
| `Runs.FirstInstall` | internal/surge/install.go:17-113 | on an empty file, installing one valid node succeeds on port 61080 under its display name and establishes the invariant with exactly its entry |
| `Runs.RunFrames` | internal/surge/profile.go:81-147 | no run loses, adds, changes or reorders a non-blank line outside the block; a file without the section gets its header once, at its place, and no other line |
| `Runs.RemoveUndoesAdd` | internal/surge/remove.go:9-56 | Remove of the names that Add reported restores every non-blank line of the file |
| `Runs.VerifyManagedRunTarget` | cmd/xcore-bridge/bridge_commands.go:162-180 | the search accepts exactly the targets of some managed policy |
| `Runs.VerifiedExactly` | cmd/xcore-bridge/bridge_commands.go:162-180 | on a managed profile exactly the trimmed links with the ports of the entries are accepted, on the default host |
| `Runs.AddThenVerify` | cmd/xcore-bridge/bridge_commands.go:162-180 | after a successful Add every new link is accepted on its reported port, and every target that was accepted before still is |
| `Files.FileSystem.AtomicWriteFile` | internal/surge/files.go:16-36 | the states that the write takes the disk through, with a failure at any step |
| `Files.FileSystem.Edit` | internal/surge/install.go:101-111 | an edit reads the file, saves the old text as the backup, then saves the new text |
| `Files.CutEdit` | internal/surge/install.go:101-111 | cut at any step, the profile is wholly old or wholly new, and if it is new the backup holds the old text; no other file but the temporary ones is touched |
| `Files.CutRun` | internal/surge/files.go:16-36 | whenever a run of edits is cut, even in the middle of a write, the profile on disk satisfies the invariant of runs |
| `Files.BackupIsPrevious` | internal/surge/install.go:101-111 | after the k-th edit of any run, if it was saved, the backup is the profile as it was after edit k-1 |
| `Records.DecodeWhole` | cmd/xcore-bridge/policy_runtime.go:143-151 | a whole owner record decodes to itself, with and without the final newline |
| `Records.DecodePrefix` | cmd/xcore-bridge/policy_runtime.go:164-177 | the empty file and every incomplete record is refused; a record is readable exactly from its last character on |
| `Ownership.StepKeeps` | cmd/xcore-bridge/policy_runtime.go:34-190 | every step of every process, and every crash, keeps the invariant of the protocol |
| `Takeover.OneOwner` | cmd/xcore-bridge/policy_runtime.go:34-111 | in every reachable state a key has at most one owner, a running server holds its lock, no two servers of one key run, and the holder of a lock is alive |
| `Takeover.OwnerRecord` | cmd/xcore-bridge/policy_runtime.go:134-162 | from the end of tryAcquire to the unlock the lock file decodes to the own pid and link hash, and waiting processes with that link find the owner |
| `Takeover.RecordWasWritten` | cmd/xcore-bridge/policy_runtime.go:164-177 | whatever record is decoded, at an earlier moment the process it names held the lock and had just completed it |
| `Takeover.FilesArePrefixes` | cmd/xcore-bridge/policy_runtime.go:134-162 | every lock file that can be reached holds the beginning of one record, or all of it |
| `Takeover.WaiterTakesOver` | cmd/xcore-bridge/policy_runtime.go:46-81 | when an owner crashes or unlocks, in any reachable state, its server is gone (before the unlock) and the key is free; whatever happens later, the next poll of a process waiting for the key takes the lock, unless another took it since and holds it still |
| `Takeover.NextPoll` | cmd/xcore-bridge/policy_runtime.go:58-80 | a waiting process is back at the lock after at most three steps of its own, which touch no lock |
| `Takeover.NextPollAcquires` | cmd/xcore-bridge/policy_runtime.go:46-81 | from any state in which the key is free, the next poll of a waiting process takes the lock unless another process took it since and holds it still |
| `Takeover.LockHistory` | cmd/xcore-bridge/policy_runtime.go:134-162 | a key that was free is locked only because its holder took it since, without a break |
| `Takeover.Announcements` | cmd/xcore-bridge/policy_runtime.go:46-81 | a process announces standby at most once and never after it owns the lock, and taking over only after standby |
| `Takeover.StandbyIsInformed` | cmd/xcore-bridge/policy_runtime.go:58-71 | whoever has announced standby has before, as the same process, read an owner record of its own link from its own lock file |
| `PolicyRuntime.Runtime.TryAcquire` | cmd/xcore-bridge/policy_runtime.go:134-162 | the result, the flag, the lock and the file content after tryAcquire, with a failure at any step |
| `PolicyRuntime.Runtime.Close` | cmd/xcore-bridge/policy_runtime.go:179-190 | close gives an owned lock back, leaves the content, and may be called twice |
| `PolicyRuntime.RunForeground` | cmd/xcore-bridge/policy_runtime.go:34-111 | the polling loop computes the announcements and the end of `PolicyRuntime.StandbyExactly`, and the steps it takes; on every path the server is closed before the lock is given back |
| `PolicyRuntime.StandbyExactly` | cmd/xcore-bridge/policy_runtime.go:46-81 | standby is announced if and only if, at some turn that the loop gets to, another process holds the lock with a record of the own link and its server answers; with the end, which the first turn with a free lock, a failing flock or a cancellation fixes, that gives all announcements |
| `PolicyRuntime.ForegroundNotes` | cmd/xcore-bridge/policy_runtime.go:46-81 | the loop also in the middle, with standby announced or not: standby at most once and first, taking over right after it, ready last and exactly when the process served |
| `PolicyRuntime.AcquireAlone` | cmd/xcore-bridge/policy_runtime.go:134-162 | the recorded steps of tryAcquire on a free lock, as steps of the protocol, end with the lock held and exactly the record in the file, or, for each failure, with the lock free and the file as far as it was written |
| `PolicyRuntime.WaitAlone` | cmd/xcore-bridge/policy_runtime.go:58-81 | the recorded steps of a turn at which another process holds the lock, as steps of the protocol, end where the turn says, with the same announcements, and touch no lock, file or server |
| `PolicyRuntime.OwnedAlone` | cmd/xcore-bridge/policy_runtime.go:84-111 | the recorded steps of an owner, as steps of the protocol: the server is gone while the lock is held, and after close the lock is free and the record stays |
| `Versions.ParseUpgradeVersion` | cmd/xcore-bridge/upgrade.go:381-418 | the stepwise cutting computes the parser that the lemmas are about |
| `Versions.ParsesExactly` | cmd/xcore-bridge/upgrade.go:381-430 | a text is read as a version if and only if it is three numbers that fit an int, with an optional "v", hyphen part, plus part and white space around it, and then as what these pieces mean |
| `Versions.ComparePrerelease` | cmd/xcore-bridge/upgrade.go:448-471 | the loop over two lists compares them lexicographically, the shorter one first |
| `Versions.CompareIsPreorder` | cmd/xcore-bridge/upgrade.go:366-493 | the comparison of tags is a total preorder on all strings, with unparseable tags below parseable ones |
| `Versions.ResolveBeta` | cmd/xcore-bridge/upgrade.go:317-344 | the loop returns the first maximum among the eligible version tags, else the first eligible tag, and fails exactly when there is none |
| `Versions.AcceptedExactly` | cmd/xcore-bridge/upgrade.go:353-364 | an exact upgrade is accepted exactly to a version above the current one, and from a text that is no version to every version |
| `Versions.UpgradesIncrease` | cmd/xcore-bridge/upgrade.go:353-364 | along accepted exact upgrades the installed version strictly increases, so none comes back, from whatever version the chain starts |
| `SemVer.ParsePrint` | cmd/xcore-bridge/upgrade.go:381-418 | a version text, with white space, "v" and build metadata, parses to its parts exactly when its core numbers fit an int |
| `SemVer.FittingAgree` | cmd/xcore-bridge/upgrade.go:432-493 | versions whose numbers fit an int are ordered as in section 11 of Semantic Versioning 2.0.0, which is written down on its own |
| `SemVer.FittingTagsAgree` | cmd/xcore-bridge/upgrade.go:366-493 | the same for all spellings of their tags: white space around either, with or without a leading v |
| `SemVer.AgreesExactlyIfFits` | cmd/xcore-bridge/upgrade.go:473-493 | a version is ordered as in the standard against all fitting versions exactly when its own numbers fit |
| `SemVer.WitnessDisagrees` | cmd/xcore-bridge/upgrade.go:473-493 | for every version with an overflowing number, a version against which the order is wrong |
| `Routing.TaggedInjective` | internal/bridge/config.go:171-173 | tags of different policies differ, whatever their ports |
| `Routing.LevelMeans` | internal/bridge/config.go:184-191 | the level is 0 when absent, else the number up to 4294967295 whose digits it is, perhaps behind zeros; nothing else is accepted |
| `Routing.ListenerInjective` | internal/bridge/config.go:78-85 | the listener key identifies host and port, also for hosts that contain colons |
| `Routing.MultiJsonConfig` | internal/bridge/config.go:56-169 | succeeds exactly when there are policies, no two share a listener, and each has a valid node, a legal port and transport and a level in range; else names the first offender; the result has one inbound, outbound and rule for each policy and exactly the levels in use |
| `Routing.RoutesExactly` | internal/bridge/config.go:126-169 | tags and listeners are pairwise distinct, and under first-match routing a connection on the listener of a policy reaches the server of that policy and no other, and nothing else is listened on |
| `Routing.ConfigFromProfile` | internal/daemon/daemon.go:504-537 | the two lists stay aligned with the managed policies; the first unreadable link is the error |
| `Routing.ManagedRoutes` | internal/daemon/daemon.go:504-537 | a profile with the invariant never meets the duplicate-listener error, and each managed port leads to the server of its own link |

## Left out

- Names.SanitizeIsClean: the Unicode tables of letters and digits above U+007F are a set that is not specified, so the
  results hold for every such table; case mapping is exact for comparisons with ASCII texts only.
- Quoting.UnquoteOfQuote: a string is a sequence of code points, so bytes that are not UTF-8, and the escapes that
  stand for single bytes above 0x7F, which `Quote` never writes for valid text, are not modelled; `Unquote` refuses
  them.
- Which characters above U+007F `Quote` prints as they are is another unspecified table.
- Lines.ProxyLine: `vless.Parse`, `Validate` and `net.ParseIP` are a node with a validity flag, a display name and the
  text of its address; REALITY and transport checks are not modelled.
- Ports.FindAvailablePort: whether a port can be bound is a function fixed for one call; sockets are not modelled.
- Editor.Install: maps from ports or names to true are sets.
- Editor.Remove: values such as the profile path are taken as given; a file that cannot be read is an edit that does
  not happen (module Files), not an error value.
- Files.CutEdit: file modes, directories, symbolic links and loss of data that was written but not synced are not
  modelled; removing a temporary file after a failure succeeds.
- Files.BackupIsPrevious: no other program writes the profile or its backup during the run.
- Records.DecodePrefix: JSON texts other than those the program writes, and their beginnings, are refused; a lock file
  never holds any (`Takeover.FilesArePrefixes`).
- Takeover.RecordWasWritten: one read of the lock file is one step.
- Ownership.StepKeeps: keys stand for the path, host and port behind a SHA-256 file name, which is taken to be
  injective; path cleaning is not modelled. The server is a flag: starting it may fail, its sockets and its own
  failures are left out.
- Takeover.NextPollAcquires: no fairness and no clock; a process that keeps losing the race may wait for ever, as in
  the program.
- HandWritten.TypedPorts: the exec path, profile path and link hold no comma, and all port fields stand behind the
  printed front; `HandWritten.CleanPortReported` has neither limit, but goes one way only.
- Readings.PrintedLine: a name and a display name of which nothing is left are not covered; the program then prints an
  empty name. `Install` and `Add` never ask for that.
- PolicyRuntime.RunForeground: a finite list of turns stands for what other processes do between polls; the wait of a
  serving process for its signal is one turn.
- Versions.ParseUpgradeVersion: downloads, checksums, archives, installation and the stable channel are left out.
- Routing.RoutesExactly: JSON encoding and the settings of each transport are left out; a server is its link, its
  level text and whether it is acceptable.
- Routing.ConfigFromProfile: `vless.Parse` and `PolicyLinkHash` are functions given from outside.
- launchd, signals, process start, readiness probes, log files, flags and output are left out.

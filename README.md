# process-layout, modelled in Dafny

`process-layout.py` is the build helper that reads the initramfs layout
file. Every line of that file names one file-system entry: an entry type
(`file`, `dir`, `nod`, `slink`, `pipe`, `sock`) and that type's fields. The
helper has two modes.

- **make** creates, under a staging directory, every directory (`dir`) and
  symbolic link (`slink`) the layout asks for, so files can later be
  installed into the right shape.
- **filter** appends every other entry to an output layout. The archive
  generator then creates those entries, which need root access.

The model has these modules:

| module | file | what it holds |
|---|---|---|
| `Options` | `options.dfy` | `Option` |
| `Seqs` | `seqs.dfy` | slice facts the proofs share |
| `Text` | `text.dfy` | the Python string primitives the reader uses: `isspace`, `split("#", 1)[0]`, `strip`, `split`, `" ".join`, and the lines a text-mode file yields |
| `Numbers` | `numbers.dfy` | `int(s, 8)` over the spellings Python accepts, and the decimal and tuple text of the error messages |
| `Paths` | `paths.dfy` | `lstrip("/")`, `os.path.join`, `os.path.dirname`, and the canonical name the kernel gives a path |
| `Layout` | `layout.dfy` | the `ProcessLayout` generator, the one line each record is written as, and the round trip between them |
| `Filter` | `filter.dfy` | the filter branch, as a loop appending to a file object |
| `Make` | `make.dfy` | the make branch, over an abstract tree of directories and links |

The make branch appears twice in `Make`:

- **As functions** on the value `Fs`. The contracts and lemmas are stated
  here.
- **As the class `Tree`.** Its methods update the tree in place, as the
  program does. Each method is proved to end in the state the matching
  function describes.

### Conventions

- **Input lines.** The layout file is given as the sequence of lines Python's
  text-mode iteration yields.
- **Output file.** The filter's output file is a string field of a class,
  which `Write` extends.
- **Errors.** A `ValueError` from the reader becomes a `LayoutError` value.
  An exception from make becomes a `Failure` that names its cause.
- **Stopping.** Both loops stop at the first error, just as the exceptions
  end the program.

## Model

| member | source | states |
|---|---|---|
| `Text.BeforeHash` | common/process-layout.py:48 | the result is the longest prefix of the line that holds no `#`; when it is shorter than the line, a `#` follows it |
| `Text.TrimStart` | common/process-layout.py:48 | the result is a suffix of the input that does not start with white space, and everything dropped is white space |
| `Text.TrimEnd` | common/process-layout.py:48 | the result is a prefix of the input that does not end with white space, and everything dropped is white space |
| `Text.Trim` | common/process-layout.py:48 | `strip()` is `rstrip()` after `lstrip()`; its meaning is stated in `Text.TrimSlice` and `Text.TrimEnds` |
| `Text.TrimSlice` | common/process-layout.py:48 | the stripped line is one contiguous piece of the line, with only white space before and after it |
| `Text.TrimEnds` | common/process-layout.py:48 | the stripped line neither starts nor ends with white space |
| `Text.Tokens` | common/process-layout.py:52 | every element `split()` yields is non-empty and holds no white space; together with `Text.TokensOfWord`, `Text.TokensSplitAtSpace` and `Text.BlankIffNoTokens` this fixes the split of every line |
| `Text.TokensOfWord` | common/process-layout.py:52 | a text with no white space splits into itself alone |
| `Text.TokensSplitAtSpace` | common/process-layout.py:52 | a white-space character cuts the line: the elements of `a + c + b` are those of `a` followed by those of `b` |
| `Text.BlankIffNoTokens` | common/process-layout.py:48-52 | a line strips to nothing exactly when it is all white space, and exactly then `split()` yields no element |
| `Text.TokensCoverNonSpace` | common/process-layout.py:52 | the elements, glued back together, are exactly the non-white-space characters of the text, in order |
| `Text.JoinSpace` | common/process-layout.py:116 | `" ".join(ts)`: the elements with one space between neighbours; `Text.TokensOfJoin` is its inverse |
| `Text.TokensOfJoin` | common/process-layout.py:116 | splitting `" ".join(ts)` gives `ts` back whenever every element is a word |
| `Text.ReadLines` | common/process-layout.py:47 | every line read is non-empty, has no line break before its last character, and every line but the last ends in `\n`; a last line without `\n` holds no line break at all |
| `Text.ReadLinesOfConcat` | common/process-layout.py:47 | text made of complete lines reads back as exactly those lines |
| `Numbers.ParseOctal` | common/process-layout.py:94 | a spelling `int(s, 8)` accepts is non-empty, and it denotes a negative number only when it starts with `-` |
| `Numbers.OctalRoundTrip` | common/process-layout.py:94 | the octal digits of `n` parse back to `n` |
| `Numbers.LeadingZero` | common/process-layout.py:94 | a leading `0` does not change the mode (`0755` is `755`) |
| `Numbers.OctalPrefix` | common/process-layout.py:94 | the `0o` prefix is accepted and does not change the mode |
| `Numbers.SpellingsAgree` | common/process-layout.py:94 | `d`, `0d` and `0od` all denote the same mode |
| `Numbers.Negative` | common/process-layout.py:94 | a minus sign in front of the digits of `n` gives `-n` |
| `Numbers.NegateMode` | common/process-layout.py:100 | a minus sign in front of any unsigned spelling negates the mode it denotes |
| `Numbers.LinkModeParses` | common/process-layout.py:100-101 | `755`, `0755` and `0o755` all parse to the one link mode, 0o755 |
| `Numbers.InvalidModeExamples` | common/process-layout.py:94 | a non-octal digit, a doubled underscore and a leading underscore each raise ValueError |
| `Paths.LstripSlash` | common/process-layout.py:95 | the result is a suffix of the path that does not start with `/`, and only slashes are dropped |
| `Paths.RstripSlash` | common/process-layout.py:103 | the result is a prefix of the path that does not end with `/`, and only slashes are dropped |
| `Paths.JoinPath` | common/process-layout.py:95 | an absolute second part replaces the first; otherwise the result is the first part, then one `/` exactly when the first part is non-empty and does not end in `/`, then the second part |
| `Paths.Dirname` | common/process-layout.py:103 | the result is the path up to its last slash; trailing slashes are dropped from it unless nothing but slashes is left, in which case it is kept whole (`/` for `/x`) |
| `Paths.Canon` | common/process-layout.py:96-97 | the name a path refers to has no empty component and no trailing slash, and it is empty only for the empty path; with `Paths.CanonOfCanonical`, `Paths.CanonTrailingSlash` and `Paths.CanonMergesSlashes` this fixes the name of every path |
| `Paths.CanonOfCanonical` | common/process-layout.py:96-97 | a canonical name is its own canonical name |
| `Paths.CanonTrailingSlash` | common/process-layout.py:96-97 | a trailing slash names the same entry: `p + "/"` and `p` have the same canonical name |
| `Paths.CanonMergesSlashes` | common/process-layout.py:96-97 | two slashes in a row separate components as one does |
| `Paths.CanonKeepsNames` | common/process-layout.py:96-97 | canonicalising removes only slashes: every other character of the path is kept, in order |
| `Layout.RecordShape` | common/process-layout.py:37-44 | a yielded record has five to eight elements: exactly five for `dir`, exactly six for `slink` |
| `Layout.LayoutError.Message` | common/process-layout.py:56-65 | the ValueError text is longer than the offending line and ends with it |
| `Layout.Content` | common/process-layout.py:48 | `line.split("#", 1)[0].strip()`; what it keeps is stated in `Layout.ContentHasNoHash`, `Layout.EntryElements` and `Layout.EntryIsCommentFreeText` |
| `Layout.ParseLine` | common/process-layout.py:48-67 | a line is skipped exactly when only white space precedes its first `#`; what it yields has a known type, an allowed count, and elements that are words without `#` |
| `Layout.ContentHasNoHash` | common/process-layout.py:48 | nothing after the first `#` survives comment removal |
| `Layout.EntryElements` | common/process-layout.py:48-52 | a yielded record is the `split()` of the stripped text before the comment |
| `Layout.EntryIsCommentFreeText` | common/process-layout.py:48-52 | a record's elements, glued together, are exactly the non-white-space text before the first `#` |
| `Layout.UnknownTypeRejected` | common/process-layout.py:54-58 | an unknown first element raises the unknown-type error carrying that element and the stripped line |
| `Layout.WrongArityRejected` | common/process-layout.py:60-65 | a known type with a disallowed count raises the arity error carrying the allowed counts, the count and the stripped line |
| `Layout.Collect` | common/process-layout.py:47-67 | the generator yields no more records than it read lines, and each record comes from one of them |
| `Layout.ProcessLayout` | common/process-layout.py:34-67 | every record yielded is valid, and there are no more records than lines |
| `Layout.ProcessLayoutOfLine` | common/process-layout.py:47-67 | one line yields nothing if blank, stops the generator with its error if malformed, and otherwise yields itself |
| `Layout.ProcessLayoutAppend` | common/process-layout.py:47-67 | file order: the records of `a + b` are those of `a` followed by those of `b`, unless `a` already raised |
| `Layout.ProcessLayoutStep` | common/process-layout.py:47-67 | reading one more line skips it, raises its error, or yields its elements after the earlier records |
| `Layout.ProcessLayoutStop` | common/process-layout.py:56-65 | once a prefix of the file has raised, the rest of the file does not affect the outcome |
| `Layout.Serialise` | common/process-layout.py:116 | a record is written as one line ending in a newline; `Layout.SerialiseRoundTrip` reads it back |
| `Layout.SerialiseRoundTrip` | common/process-layout.py:116 | a valid record, written as its line, parses back to the same record |
| `Layout.SerialisedLineShape` | common/process-layout.py:116 | a written line holds no line break before its final newline |
| `Layout.ProcessSerialised` | common/process-layout.py:34-67 | lines written from valid records are read back as exactly those records, with no error |
| `Filter.OutputFile.constructor` | common/process-layout.py:113 | a file opened for appending starts with its existing content |
| `Filter.OutputFile.Write` | common/process-layout.py:116 | a write appends its text to the file |
| `Filter.KeptRecords` | common/process-layout.py:115 | every kept record is neither `dir` nor `slink` and comes from the input, and there are no more of them than records |
| `Filter.Emitted` | common/process-layout.py:114-116 | the text filter appends for a list of records: the written lines of the kept ones, in order; stated in `Filter.EmittedAppend`, `Filter.EmittedOne` and `Filter.ReadEmitted` |
| `Filter.Filter` | common/process-layout.py:109-116 | the file ends as its old content plus one line per record that is neither `dir` nor `slink`, in layout order; it gives back the generator's error, and a malformed line stops it only after the earlier lines were written |
| `Filter.FilterLine` | common/process-layout.py:114-116 | one loop pass stops on a malformed line, and otherwise appends exactly that line's output |
| `Filter.StepOutput` | common/process-layout.py:114-116 | what the filter writes for one more line goes after what it already wrote |
| `Filter.EmittedAppend` | common/process-layout.py:114-116 | the filter streams: the output for `a + b` is the output for `a` followed by the output for `b` |
| `Filter.EmittedOne` | common/process-layout.py:115-116 | one record is written as its space-joined elements and a newline exactly when it is neither `dir` nor `slink` |
| `Filter.FilterExample` | common/process-layout.py:115-116 | a `dir`, `slink`, `file`, `pipe` layout filters to the `file` line followed by the `pipe` line |
| `Filter.ReadEmitted` | common/process-layout.py:116 | the output reads back as one line per kept record |
| `Filter.RefilterReproduces` | common/process-layout.py:109-116 | filtering into an empty file and reading the result gives exactly the kept records with no error, and filtering that output again writes the same text |
| `Make.Fs.MakeDirs` | common/process-layout.py:96 | for a process the modes do not restrict: it succeeds exactly when the path is non-empty and no link stands on the way; on success every directory down to the path exists, existing directories keep their mode, links are untouched, and only missing directories of the chain are added, each with the new-directory mode; on failure nothing changes |
| `Make.Fs.Chmod` | common/process-layout.py:97 | it succeeds exactly when the mode fits a C `int` and the path is a directory; on success that directory's mode is set to the mode's permission bits and nothing else changes; on failure nothing changes |
| `Make.Fs.Symlink` | common/process-layout.py:21-31 | for a process the modes do not restrict: it succeeds exactly when the path is non-empty, every entry above it is a directory (not a link), and the path is not a directory; on success the path is a link to the target, whatever link was there before, and no directory or other link changes; on failure nothing changes |
| `Make.Fs.ApplyDir` | common/process-layout.py:91-97 | a `dir` record keeps the tree consistent and never removes an entry |
| `Make.Fs.ApplySlink` | common/process-layout.py:98-104 | a `slink` record keeps the tree consistent and never removes an entry |
| `Make.Fs.Apply` | common/process-layout.py:89-104 | one record keeps the tree consistent and never removes an entry |
| `Make.Fs.Records` | common/process-layout.py:88-107 | make stops only because of a rejected record |
| `Make.Fs.Run` | common/process-layout.py:84-107 | make ends where the records the generator yields leave the tree; it succeeds exactly when every line parses and every record succeeds; a malformed line is reported only when every earlier record succeeded, and a rejected record is reported as its own failure |
| `Make.Staged` | common/process-layout.py:95 | a record's path lands under the output root: the root is a prefix, the path without its leading slashes is the suffix, and one `/` lies between them exactly when the root is non-empty and does not end in one |
| `Make.Tree.constructor` | common/process-layout.py:84-88 | the tree starts in the given state with the given new-directory mode |
| `Make.Tree.MakeDirs` | common/process-layout.py:96 | the in-place update ends in the state, and with the error, that `Fs.MakeDirs` gives |
| `Make.Tree.Chmod` | common/process-layout.py:97 | the in-place update ends in the state, and with the error, that `Fs.Chmod` gives |
| `Make.Tree.Symlink` | common/process-layout.py:21-31 | creating the link, and on an existing entry unlinking it and creating the link again, ends where `Fs.Symlink` does |
| `Make.Tree.Apply` | common/process-layout.py:89-104 | the loop body for one record ends where `Fs.Apply` does |
| `Make.Tree.Make` | common/process-layout.py:84-107 | the loop, applying each record as the generator yields it, ends in the state and with the failure of `Fs.Run` |
| `Make.RecordsAppend` | common/process-layout.py:88-107 | records run in sequence: `a + b` runs `b` from where `a` left the tree unless `a` failed |
| `Make.RunMalformed` | common/process-layout.py:56-65 | a malformed line stops make with its error after every earlier record was applied |
| `Make.RunRejected` | common/process-layout.py:105-107 | a failing record stops make with its cause; no later line is read |
| `Make.RecordsFailFast` | common/process-layout.py:88-107 | the outcome of a run whose record `k` is the first to fail is that record's rejection, over the tree the records before it left |
| `Make.OtherTypesIgnored` | common/process-layout.py:91-104 | a record that is neither `dir` nor `slink` succeeds and changes nothing |
| `Make.DirFieldsChecksFirst` | common/process-layout.py:92-94 | on the fields of a `dir` record, owner or group other than `0` fails the ownership check, a bad mode is reported only after that check passes, and neither failure touches the tree |
| `Make.DirChecksFirst` | common/process-layout.py:91-97 | a `dir` record checks owner and group, then parses its mode, both before it touches the tree; each check fails exactly under its condition, and a failure leaves the tree unchanged |
| `Make.SlinkFieldsChecksFirst` | common/process-layout.py:99-101 | on the fields of a `slink` record, the mode is parsed first, then owner, group and mode are checked together, and neither failure touches the tree |
| `Make.SlinkChecksFirst` | common/process-layout.py:98-104 | a `slink` record parses its mode, then checks that owner and group are `0` and the mode is 0o755, both before it touches the tree; each check fails exactly under its condition, and a failure leaves the tree unchanged |
| `Make.LinkModeSpellings` | common/process-layout.py:100-101 | a root-owned `slink` record may spell its mode `755`, `0755` or `0o755`: each passes the mode parse and the joint check |
| `Make.DirEffect` | common/process-layout.py:91-97 | for a process the modes do not restrict: a `dir` record succeeds exactly when its checks pass, its mode fits a C `int`, its staged path is non-empty and no link lies on its way; then its directory and those above exist, it carries the record's mode, links are untouched, other directories keep their mode, and every new directory lies on the record's chain |
| `Make.SlinkEffect` | common/process-layout.py:98-104 | a `slink` record that succeeds passed its checks; its path is then a link to the record's target, the directories above it exist, no other link changes, no directory changes mode, and every new directory lies on the chain of the link's parent and has the new-directory mode |
| `Make.MakeDirsReady` | common/process-layout.py:96 | `exist_ok=True`: over a consistent tree (no path both a directory and a link), makedirs on a non-empty path whose directories all exist changes nothing |
| `Make.ChmodReady` | common/process-layout.py:97 | chmod of a mode that fits a C `int` on an existing directory sets that mode's permission bits and nothing else |
| `Make.SymlinkReady` | common/process-layout.py:21-31 | over a consistent tree, relinking an existing link whose ancestors are directories only changes its target |
| `Make.ApplyReady` | common/process-layout.py:89-104 | over a consistent tree, a record whose checks pass and whose directories and link already exist succeeds and only rewrites the value at its own path |
| `Make.ApplyShape` | common/process-layout.py:89-104 | after a record succeeds, its entries are in place, its path holds what it wrote, and no other path changed its value |
| `Make.ReplayReady` | common/process-layout.py:88-104 | over a consistent tree, replaying records whose checks pass and whose entries exist succeeds, writes their values with the later record winning, and adds no path |
| `Make.RecordsSettle` | common/process-layout.py:88-104 | after records that all succeed, each one's entries exist and the tree holds what they wrote, the later record winning on a shared path |
| `Make.ApplyIdempotent` | common/process-layout.py:89-104 | over a consistent tree, a record that succeeded once succeeds again and changes nothing |
| `Make.RecordsIdempotent` | common/process-layout.py:88-104 | over a consistent tree, replaying records that all succeeded, over the tree they left, succeeds and changes nothing |
| `Make.MakeIdempotent` | common/process-layout.py:84-107 | for a process the modes do not restrict: running make a second time with the same layout, over the tree a successful run left, succeeds and changes nothing |
| `Make.LastLinkWins` | common/process-layout.py:21-31 | after a successful run ending in a `slink` record, its path holds that record's target, whatever earlier records put there |
| `Make.LastModeWins` | common/process-layout.py:91-97 | after a successful run ending in a `dir` record, its path holds that record's mode, whatever earlier records set there |

## Left out

- The command line is not modelled: `GetParser`, `main`'s dispatch on
  the mode and `__main__` (lines 70-82, 119-120). The two branches are
  modelled as `Make.Tree.Make` and `Filter.Filter`, and the output root is a
  parameter.
- Opening files is not modelled. The layout file is given as its lines. The
  output file is an object holding its existing content. UTF-8 decoding is
  not modelled.
- The real operating system is not modelled. The tree has only directories
  with modes and links with targets.
  - Regular files, device nodes and other entries already present at a path
    are not represented.
  - Links are never followed. So makedirs through a link, or onto a link,
    fails with `NotADirectory`, even where the link would resolve to a
    directory. A symlink onto an existing directory fails with
    `IsADirectory`.
- Permission bits are not enforced. Make runs without root, and the kernel
  refuses to create an entry in a directory whose mode denies the owner
  write or search access (a layout that gives `/a` mode 0555 before it adds
  a link under `/a`). The model records each directory's mode but never
  consults it. So the success conditions of `Make.Fs.MakeDirs`,
  `Make.Fs.Symlink` and `Make.DirEffect`, and `Make.MakeIdempotent`, hold
  only for a process the modes do not restrict.
- `.` and `..` components are not resolved. Paths are compared after
  collapsing repeated slashes and dropping a trailing one.
- The process umask is not modelled. The mode `os.makedirs` gives new
  directories is the parameter `newDirMode`.
- `chmod` keeps mode bits modulo 0o10000. The kernel's handling of the
  other bits is not modelled.
- `Make.Fs.MakeDirs`: a failing makedirs is modelled as changing nothing. The
  real call may have created some ancestors before it failed, and the model
  does not capture that.
- `Make.Fs.Symlink`: when several problems are present, the error it reports
  is chosen in a fixed order (a link above the path first, then a missing
  directory). The kernel reports whichever problem it meets first while
  walking the path.
- The model names the cause of a failure instead of raising the exception.
  Exception types and errno values are not modelled beyond that cause.
- The diagnostic `print` before the exception is re-raised (lines 105-107)
  is not modelled. Its effect of stopping make is modelled.
- Running under `python -O`, which drops the `assert` checks, is not
  modelled.
- Concurrent changes to the tree and the files are not modelled.
- White space and digits are Python's `str.isspace` and the ASCII digits
  `0`-`7`. Non-ASCII decimal digits, which `int()` also accepts, are not
  modelled.
- `Make.SlinkEffect` states only what a successful `slink` record leaves
  behind. It does not give the exact condition for the tree operations to
  succeed. Their check-failure conditions are stated in
  `Make.SlinkChecksFirst`. The conditions on the tree are stated in
  `Make.Fs.MakeDirs` and `Make.Fs.Symlink`.
- `Make.MakeIdempotent` is stated only for a first run that succeeded, and
  only over a consistent tree (no path both a directory and a link). Since
  modes are not enforced, it does not capture a layout whose modes make the
  second run fail (a directory set to 0600 after a subdirectory was made
  under it).
- `Make.Fs.ApplyDir` states only invariants: consistency is kept and no
  entry is removed. Its behaviour is stated in `Make.DirChecksFirst` and
  `Make.DirEffect`.
- `Make.Fs.ApplySlink` states only invariants: consistency is kept and no
  entry is removed. Its behaviour is stated in `Make.SlinkChecksFirst` and
  `Make.SlinkEffect`.
- `Make.Fs.Apply` states only invariants: consistency is kept and no entry
  is removed. Its behaviour is stated in the per-type lemmas and in
  `Make.OtherTypesIgnored`.
- `Make.Fs.Records` states only that a failure is a rejected record. Its
  sequencing is stated in `Make.RecordsAppend` and `Make.RecordsFailFast`.

# FTP session client, modelled in Dafny

This project models the session side of the PHP class `angelsu\ftp\FTP` (`FTP.php`). The class wraps one FTP connection and offers these operations:

- uploads that first create any missing remote directories (`Put`, `mkdir`);
- downloads into the system temporary directory (`Get`);
- changing the cached working directory (`chdir`);
- a simple listing (`GetList`) and a detailed listing (`GetDetailedList`), whose lines are parsed by a cascade of four regular expressions;
- name lookup in the simple listing (`IsFile`);
- deletion of files and directories (`DeleteFile`, `DeleteDir`).

The server is abstract state of the session object (`Client.Ftp`):

- the paths its directory probe accepts (`dirs`);
- the paths its file probe accepts (`files`);
- the paths `MKD` fails to create (`refused`);
- a queue of the transfer statuses it will report (`statuses`);
- the answers it gives to `SYST`, `NLST`, `LIST` and `SIZE`.

The commands that change the server or drive a transfer are appended to `trace`: CWD, MKD, DELE, RMD, STOR, RETR and each transfer continuation. So is every local file the client opens or closes. Each state-changing method states its complete new state. Those states are given by pure functions, and lemmas prove what the source promises about those functions.

Modules, leaves first:

- `Wrappers` holds `Option`.
- `Paths` models `explode`/`implode`, the directory/filename split of `Put` and `Get`, the leading-`/` fix-ups, `rtrim($dir, '/')` and `array_filter` over path segments.
- `Lexer` is a deterministic matcher that stands in for the regular expressions. Tokens are maximal runs of a character class, single characters and literals. It models PCRE's backtracking only where it matters: the `\s+(.+\.\w+)\s?$` tail, where the blank separator gives back characters to the name.
- `Listing` holds the four line patterns of `GetDetailedList`, the first-match cascade and the entries built from the captures.
- `Tree` describes the paths `mkdir` visits and creates.
- `Transfer` describes the `FTP_MOREDATA` loop as a function of the status queue.
- `Client` holds the class `Ftp` with its imperative methods.

`mkdir` ignores the result of `ftp_mkdir` (FTP.php:108, 113); on the walk it goes on after a failed creation (FTP.php:106-111). `Client.Ftp.MakeDir` does the same.

Some definitions carry no contract of their own; they are used by the members in the table:

- `Listing.Tokens` and `Listing.EndingOf` write each of the four regular expressions of FTP.php:168-174 as a token list and an ending. `Listing.MatchIff` and `Listing.AllDeterministic` are the properties stated about them.
- `Listing.ParseLine` is one step of the `foreach` of FTP.php:166-177: the entry of the first pattern that matches, or nothing. `Listing.FirstMatchWins` and `Listing.NoMatchNoEntry` state its two cases.
- `Listing.EntryOf` builds the entry from the pieces of a match: name, size, date, time and type. `Listing.EntryName`, `Listing.EntryKind`, `Listing.UnixEntrySize` and `Listing.EntryDateTime` state what each field is.
- `Client.Ftp.TypeDir` is the SYST switch of FTP.php:164 and FTP.php:187. The listing argument is '.' when `ftp_systype` answers "UNIX", and the cached directory otherwise. `GetList` and `GetDetailedList` both list `TypeDir()`.

## Model

| member | source | states |
|---|---|---|
| Paths.Explode | FTP.php:45 | explode on '/' gives at least one piece and no piece contains '/' |
| Paths.ImplodeExplode | FTP.php:45-47 | implode('/', explode('/', s)) == s |
| Paths.ExplodeImplode | FTP.php:45-47 | exploding the join of slash-free pieces gives the pieces back |
| Paths.SplitRemoteParts | FTP.php:45-47 | the filename has no '/'; with a '/' in the path, directory + '/' + filename is the path; without one, the directory is empty and the filename is the whole path |
| Paths.EnsureLeadingSlash | FTP.php:216 | the result starts with '/'; it is the argument when that already starts with '/', otherwise '/' + argument |
| Paths.DeleteTarget | FTP.php:213-217 | nothing for exactly "/"; otherwise ftp_root + argument when the argument starts with '/', else ftp_root + '/' + argument |
| Paths.NormalizeDir | FTP.php:163 | a non-empty result starts with '/'; the empty directory stays empty; otherwise the leading-slash fix-up |
| Paths.NormalizeDirIdempotent | FTP.php:163 | normalising twice equals normalising once |
| Paths.RTrimSlash | FTP.php:169 | the result is a prefix of the argument, does not end in '/', and only '/' characters were removed |
| Paths.Segments | FTP.php:99 | no kept segment is "", "0" or contains '/' |
| Paths.Keep | FTP.php:99 | every kept piece is a piece that PHP does not deem empty, and every such piece is kept |
| Paths.KeepApp | FTP.php:99 | array_filter keeps order: it distributes over concatenation |
| Paths.KeepOne | FTP.php:99 | one piece is dropped exactly when it is "" or "0" |
| Lexer.Run | FTP.php:168-175 | a maximal run of a character class: all of the prefix is in the class and the rest does not start with one |
| Lexer.Split | FTP.php:170-174 | PCRE's backtracking into `\s+` before `(.+\.\w+)`: the separator keeps as many blanks as it can while the rest still splits into a dotted name and an optional blank |
| Lexer.Step | FTP.php:168-175 | one token consumes a fitting piece, and a run token stops where its class stops |
| Lexer.Finish | FTP.php:168-175 | the pattern endings `$`, `\s?$` and `\s+(.+\.\w+)\s?$` produce pieces that fit them and make up the rest of the line |
| Lexer.DottedNameOf | FTP.php:170-174 | every separator/name/tail decomposition that PCRE's preference allows is the one the matcher finds |
| Lexer.MatchFrom | FTP.php:168-175 | a successful match yields pieces that fit the tokens and concatenate to the line |
| Lexer.MatchFromOf | FTP.php:168-175 | completeness: for deterministic tokens, every fitting decomposition of a line is found |
| Lexer.MatchFromIff | FTP.php:168-175 | both directions: the match returns exactly the fitting decomposition of the line |
| Lexer.DeterministicOf | FTP.php:168-175 | a pattern in which every run is followed by a disjoint class is deterministic |
| Listing.AllDeterministic | FTP.php:168-174 | each of the four patterns is deterministic, so maximal runs give PCRE's match |
| Listing.Match | FTP.php:168-174 | preg_match of one pattern: the pieces have the pattern's width and make up the line |
| Listing.MatchIff | FTP.php:168-174 | a line matches a pattern with given pieces exactly when the pieces fit and make up the line |
| Listing.FirstWhere | FTP.php:168-176 | the index found is the first shape that passes the test; when none is found, no shape passes it |
| Listing.FirstOf | FTP.php:168-176 | the index found is the first of the four patterns, in the source's order, that matches the line; when none is found, no pattern matches |
| Listing.FirstMatchWins | FTP.php:168-176 | when pattern k matches and no earlier one does, the entry is built from pattern k's captures |
| Listing.NoMatchNoEntry | FTP.php:166-177 | a line gives no entry exactly when no pattern matches it |
| Listing.EntryName | FTP.php:169-175 | the name is rtrim(dir,'/') + '/' + the name capture; that capture is digits for a DOS directory, a word for pattern 3 and a dotted name for patterns 2 and 4 |
| Listing.NameCapture | FTP.php:168-174 | the shape of each pattern's name capture |
| Listing.EntryKind | FTP.php:168-175 | an entry is a directory exactly when the DOS `<DIR>` pattern matches, and exactly when its size is the integer 0 |
| Listing.EntryDateTime | FTP.php:169-175 | the date and time are groups 1 and 2 in the DOS formats, a `[\d-]+` run and a `[\d:]+[A|P]M` time; in the Unix formats they are groups 5 and 6, a word, blanks and digits, then `[\d]+:[\d]+` (short form) or a `[\d:?]+` run (long form) |
| Listing.UnixEntrySize | FTP.php:172-175 | in patterns 3 and 4 the size is all digits and is formatted unless it is numerically zero, when the raw text is kept; pattern 3's link count and size are one digit |
| Listing.DirectoryPermissionsListedAsFile | FTP.php:172-175 | a line starting with 'd' fails both DOS patterns, so its entry has type file and a size other than the DOS directory's integer 0 (it may still be the raw '0') |
| Listing.DosNeedsDate | FTP.php:168-170 | a line whose first character is neither a digit nor '-' matches neither DOS pattern |
| Listing.DashLineNotDos | FTP.php:168-170 | a line starting "-r" matches neither DOS pattern |
| Listing.ForeignOpeningSkipped | FTP.php:166-177 | a line whose first character is neither a digit, '-', nor one of 'd', 'r', 'x', 'w' gives no entry |
| Listing.TotalLineSkipped | FTP.php:166-177 | the summary line "total 12" gives no entry |
| Listing.Collect | FTP.php:166-177 | after n lines, an index is a key exactly when it is below n and its line gave an entry, and the key holds that entry |
| Listing.Detailed | FTP.php:161-179 | an index is a key exactly when its line gives an entry, and the key holds that entry; lines that give none leave no key |
| Listing.DetailedKeys | FTP.php:166-177 | a line index is a key exactly when some pattern matches that line |
| Listing.EntryUnderDir | FTP.php:169-175 | the entry of a line is named rtrim(dir,'/') + '/' followed by at least one more character |
| Listing.DetailedUnderDir | FTP.php:169-175 | every entry's name starts with rtrim(dir,'/') + '/' and is longer than that |
| Tree.Walk | FTP.php:104-111 | one visited path per kept segment |
| Tree.GrowSnoc | FTP.php:106-110 | one more creation adds its path to the directories unless the server refuses it |
| Tree.WalkStep | FTP.php:106-110 | one foreach step visits `$root . $folder`, then continues under `$root . $folder . '/'` |
| Tree.WalkAdvance | FTP.php:106-110 | the path a foreach step visits is longer than every earlier one, so it was not visited before, and the walk continues under it and a '/' |
| Tree.WalkJoins | FTP.php:104-111 | the i-th visited path is the first i + 1 segments joined with '/' |
| Tree.Missing | FTP.php:107-109 | no more creations than visits |
| Tree.MissingIff | FTP.php:107-109 | a path is created exactly when it is visited and is not already a directory |
| Tree.MissingApp | FTP.php:106-111 | creations follow the visiting order |
| Tree.Visit | FTP.php:107-110 | a path not visited before exists exactly when it existed at the start, is created exactly when it did not, and exists afterwards unless refused |
| Tree.MkdirPlan | FTP.php:98-115 | nothing is created when the path is already a directory, and no planned path already exists |
| Tree.Grow | FTP.php:104-114 | creation only adds directories: the old ones stay, and the new ones were planned and not refused |
| Tree.WalkCreatesMissing | FTP.php:99-111 | on the walk, a path is created exactly when it is a visited prefix that does not exist |
| Tree.WalkPrefixesExist | FTP.php:104-111 | without refusals, every visited prefix is a directory afterwards |
| Tree.MkdirSettles | FTP.php:98-115 | without refusals, a second mkdir of the same path plans no creation |
| Tree.MkdirThreeLevels | FTP.php:98-115 | "a/b/c" on an empty server creates "a", "a/b", "a/b/c" in that order, and "a/b/c" exists afterwards |
| Tree.MkdirNested | FTP.php:99-111 | "a/0/c" creates "a" then "a/c" because array_filter drops "0"; an existing "a" is not re-created |
| Tree.MkdirSingle | FTP.php:99-114 | for every server state, a missing path with no '/' after its first character is planned as exactly one creation, of the path itself |
| Client.MkdirSingleEvents | FTP.php:99-114 | for such a path mkdir sends CWD '/' (when '/' is a directory) and then exactly one MKD of the path |
| Transfer.Lead | FTP.php:54-56 | the number of leading MOREDATA statuses: all of them are MOREDATA and the next status is not |
| Transfer.Outcome | FTP.php:53-56 | the status that ends the loop is never MOREDATA |
| Transfer.LeadUnique | FTP.php:54-56 | Lead is the only count those conditions allow |
| Transfer.FinishedIff | FTP.php:53-58 | the transfer succeeds exactly when the first status that is not MOREDATA is FINISHED |
| Transfer.FailedFirst | FTP.php:53-58 | a FAILED before any FINISHED ends the transfer as failed and leaves the rest of the queue |
| Transfer.RunsDry | FTP.php:54-56 | n MOREDATA and nothing more: n continues, then the transfer fails |
| Transfer.ThreeContinues | FTP.php:53-58 | three MOREDATA then FINISHED: three continues and success |
| Client.Named | FTP.php:133-135 | IsFile's array_filter keeps exactly the items whose name equals the argument |
| Client.Ftp.Chdir | FTP.php:148-155 | true with `$dir` set and a CWD sent exactly when the path is a directory; otherwise false, with nothing changed and nothing sent |
| Client.Ftp.MakeDir | FTP.php:104-114 | ftp_mkdir: the MKD is logged, and the path is added to the directories unless the server refuses it; its answer is not used |
| Client.Ftp.Mkdir | FTP.php:98-115 | true and nothing sent when the path is a directory; otherwise CWD '/' if it exists, then the MKDs of MkdirPlan; returns false for PHP's null |
| Client.Ftp.CreatePlan | FTP.php:104-114 | the creations of MkdirPlan, through the walk or as one call |
| Client.Ftp.CreateMissing | FTP.php:105-111 | the foreach sends one MKD for each visited path that is not a directory, in order, and the directories grow accordingly |
| Client.Ftp.Next | FTP.php:53-55 | takes the next status from the queue; an empty queue answers FAILED |
| Client.Ftp.RunTransfer | FTP.php:53-56 | the loop ends with Outcome of the queue, sends Lead continues, and leaves After of the queue |
| Client.Ftp.PutSkipsMkdir | FTP.php:45-49 | a remote path without '/' has an empty directory part, so mkdir is skipped and the whole path is the filename |
| Client.Ftp.Put | FTP.php:44-59 | true exactly when the transfer ends FINISHED; the full sequence mkdir-if-needed, open, chdir, STOR, continues, close; and the resulting directories and `$dir` |
| Client.Ftp.Get | FTP.php:68-82 | nothing, with nothing sent or opened, when the file probe rejects ftp_root + path; otherwise open, RETR, continues, close, and the temp path returned whatever the outcome |
| Client.Ftp.GetList | FTP.php:185-193 | one item per name of the simple listing, at the same index, with the size the server reports |
| Client.Ftp.IsFile | FTP.php:131-137 | true exactly when the argument is a name of the simple listing |
| Client.Ftp.GetDetailedList | FTP.php:161-179 | `$dir` normalised to start with '/'; the result is the cascade's entry for every matching raw line, keyed by line index |
| Client.Ftp.DeleteFile | FTP.php:212-218 | false and nothing sent for "/"; otherwise one DELE of the fixed path, true exactly when that file existed, and the file is gone afterwards |
| Client.Ftp.DeleteDir | FTP.php:225-231 | false and nothing sent for "/"; otherwise one RMD of the fixed path, true exactly when that directory existed, and it is gone afterwards |

## Left out

- `Client.Ftp.Put` and `Client.Ftp.Get` take the transfer mode as a required parameter, and `Get` also takes the local file. In FTP.php:44 and FTP.php:68 these are PHP default arguments (`$mode = FTP_BINARY`, `$local_file = NULL`). Callers of the model must pass them, and for each value the behaviour is the same as the source's.
- FormatBytesSize (FTP.php:201-205): its floating-point log/pow/round, with a domain error at 0, are not modelled. `Size.Formatted(digits)` marks where the source applies it.
- Connection management is not modelled: the connect, login and passive mode of the constructor, `close`, `__destruct` and `GetPWD`. The constructor of `Client.Ftp` only sets the initial state.
- The `is_dir`/`is_file` probes on `ftp://` URLs (FTP.php:122-124, 139-141) are membership of the exact path string in `dirs` and `files`. No URL is built, so "/a" and "a" are different paths to the model.
- `ftp_systype`, `ftp_nlist`, `ftp_rawlist` and `ftp_size` are fixed answers held in constants. A listing the server does not answer iterates as empty, and a missing size is -1.
- What the server does with a command is abstract:
  - MKD creates its path unless the path is in `refused`.
  - DELE and RMD succeed exactly when the path is a file or directory; a non-empty directory is not distinguished.
  - Client.Ftp.Put: a finished upload does not add a path to `files`, because the model does not relate the working directory to the probe's paths.
- The requests that only read from the server are not logged in `trace`: SYST, NLST, LIST, the SIZE of each listed name, and the `is_dir`/`is_file` probes. The model reads their answers from the state.
- Local files are not modelled: fopen/fclose are only logged as `Open`/`Close`. A failing fopen, the file contents and `sys_get_temp_dir` itself (a constant) are not modelled.
- Client.Ftp.Get: the `$local_file` argument is accepted and ignored, because the source overwrites it before use.
- The transfer statuses are a finite queue, and an exhausted queue answers FAILED. A server that reports MOREDATA forever, which would never end the PHP loop, is not modelled.
- Client.Ftp.Mkdir: PHP's `null` on the walk and single-call paths is modelled as `false`.
- Client.Ftp.Chdir: the result of `ftp_chdir` is not used by the source; the model logs the CWD and updates `$dir` whenever the probe accepts the path.
- Regular expressions:
  - The `/m` flag, and `^`/`$` around newlines inside one listing item, are not modelled. Anchors are taken as the ends of the item, and `.` excludes only '\n'.
  - Character classes are ASCII. `\s` is space, tab, LF, VT, FF or CR; `\w` is letters, digits and '_'.
- Client.Ftp.IsFile: names are compared as strings. PHP's `==` compares two numeric strings by value (for example "10" == "1e1"), and the model does not.
- Paths.SlashAfterFirst: `strpos($dir, '/', 1)` on the empty string is taken to be false (PHP 7). PHP 8 raises a ValueError instead.

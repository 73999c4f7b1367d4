# bpflock: lifecycle, option decoding and logging options, in Dafny

This project models three small pieces of decision logic in bpflock, a
host-security daemon that loads, pins and tears down kernel LSM BPF
programs.

- **Program lifecycle** (`pkg/bpf/bpf.go`).
  - The pin root is a class `Bpf.PinRoot`. It holds an abstract directory: a map from names to `Dir | File`. It also holds a flag saying whether the directory can be listed, and the set of entries whose removal would fail.
  - `BpfLsmDisable` is a loop over one snapshot listing. It skips names that start with `".."`, skips non-directories, and unloads every other entry. Its final state is tied to the specification function `AfterDisable`.
  - `bpftoolGetProgID` is a function of the tool, given as a function from an argument list to the outcome of running `bpftool` with it: its combined output plus an optional failure.
- **Option decoding of the bpfrestrict loader** (`bpf/bpfrestrict.c`).
  - The global `opt` struct and the option map are a class `BpfRestrict.Options`.
  - `parse_arg` applies the argument length limits.
  - `setup_bpf_opt_map` resets the permission level and the block mask, then rebuilds them step by step.
    - The `strncmp` chain is modelled with C semantics and proved to be a chain of prefix tests.
    - The `strstr` tests are modelled the same way and proved to be substring tests.
    - The written option map is described by `WrittenOptions`.
  - The early return of `setup_bpf_env_map` and the choice of the success banner in `main` are modelled too.
  - The `BPFLOCK_*` constants are symbolic.
    - A permission level is the reset value 0 or one of the three profiles.
    - A block mask is the set of blocked commands.
- **Logging options** (`pkg/logging/logging.go`).
  - `GetLogLevel`, `GetLogFormat`, `validateOpts` and `getLogDriverConfig` are modelled.
  - So are the driver loop of `SetupLogging`, `CanLogAt`/`GetLevel` and `MultiLine`.
  - The process-wide `DefaultLogger` is a class `Logging.Logger`, reduced to its level and its format. The `Set*` functions update those fields.

The shared module `Text` (text.dfy) gives the Go library functions the code calls:
- `strings.Fields` over `unicode.IsSpace`;
- `strings.Split` with a one-character separator;
- a declarative "occurs as a substring".

It proves what the model needs about them. `Wrappers` holds `Option` and `Result`.

The model follows the code as written:
- **The program ID is never checked.** A successful run of `bpftool` yields the first white-space-delimited token cut at its first `:`, whatever it is. There is no numeric check and no parse error (`Bpf.GetProgIDIsFirstFieldBeforeColon`).
- **Blank output.** If the tool succeeds with output that is only white space, the code indexes an empty slice. The model makes non-blank output a precondition of `GetProgID`. It also proves that the `s[0] == ""` guard never fires (`Bpf.NotFoundIsUnreachable`).
- **Failed removals are silent.** When `os.RemoveAll` fails, the error is dropped and the entry stays. `BpfLsmDisable` still reports success. Nothing is counted or reported.
- **No locking, no health status.** `BpfLsmEnable`/`BpfLsmDisable` take no lock, and nothing aggregates a health status. Neither is modelled.
- **The "privileged" branch.** The test of a profile starting with `"privileged"` lacks its `== 0`. So such a profile leaves the level at its reset value 0. Every other unknown profile gets the allow level, and the banner for a "privileged" profile is the allow banner (`BpfRestrict.BannerForProfile`).

## Model

| member | source | states |
|---|---|---|
| Text.IndexOf | pkg/bpf/bpf.go:51 | the index of the first `:` of the token, or its length when it has none; no separator occurs before it |
| Text.IsSpace | pkg/bpf/bpf.go:47 | the white space `strings.Fields` splits at (`unicode.IsSpace`): within ASCII exactly tab to carriage return and the space, plus the non-ASCII Unicode white space |
| Text.Fields | pkg/bpf/bpf.go:47 | `strings.Fields`: skip white space, take the run of non-space, repeat; never more fields than characters |
| Text.Split | pkg/bpf/bpf.go:51-52 | `strings.Split` yields at least one piece, and the first piece is the text before the first separator |
| Text.JoinSplit | pkg/bpf/bpf.go:51 | joining the pieces of a split with the separator gives the original string back |
| Text.SplitPiecesFree | pkg/bpf/bpf.go:51-52 | no piece of a split contains the separator |
| Text.SplitJoin | pkg/bpf/bpf.go:51 | splitting a join of separator-free pieces gives the pieces back |
| Text.FieldsAreWords | pkg/bpf/bpf.go:47-48 | every element `strings.Fields` produces is non-empty and free of white space |
| Text.FieldsEmptyIffBlank | pkg/bpf/bpf.go:47-48 | `strings.Fields` returns no field exactly when the text is blank |
| Text.FieldsKeepEveryNonSpace | pkg/bpf/bpf.go:47 | the fields, concatenated, are the text with its white space deleted: nothing lost, added or reordered |
| Text.FirstField | pkg/bpf/bpf.go:47-51 | the first field of a non-blank text is the run of non-space after the leading white space, ending at white space or at the end |
| Text.InfixAcrossSeparator | bpf/bpfrestrict.c:117-126 | a comma-free command name occurs in `a,b` exactly when it occurs in `a` or in `b` |
| Bpf.ShowArgs | pkg/bpf/bpf.go:35 | the tool is run with exactly `prog show name <progName>` |
| Bpf.ShowArgsInjective | pkg/bpf/bpf.go:35 | different program names give different argument lists |
| Bpf.GetProgID | pkg/bpf/bpf.go:34-53 | the tool is run on `ShowArgs(progName)`; a failed run gives the "Failed to show" error with name, reason and output, and no parsing; a successful run always gives an ID |
| Bpf.GetProgIDIsFirstFieldBeforeColon | pkg/bpf/bpf.go:47-52 | the ID is a prefix of the first token, has no `:` and no white space, is cut at the first `:`, and is the whole token when it has no `:` |
| Bpf.NotFoundIsUnreachable | pkg/bpf/bpf.go:47-50 | on non-blank output the first field is non-empty, so the "Failed to find prog" error never occurs |
| Bpf.GetProgIDIgnoresSurroundings | pkg/bpf/bpf.go:47-52 | leading white space and whatever follows the first token do not change the ID |
| Bpf.AfterDisable | pkg/bpf/bpf.go:71-78 | after the sweep, deletable owned directories are gone; files, `".."`-prefixed names and undeletable entries stay with their kinds; nothing is added |
| Bpf.SweptAmongStep | pkg/bpf/bpf.go:72-77 | visiting one more name removes it exactly when it is an owned directory whose removal succeeds |
| Bpf.DisableIdempotent | pkg/bpf/bpf.go:64-81 | disabling twice leaves the same pin root as disabling once |
| Bpf.DisableLeavesNoOwnedDir | pkg/bpf/bpf.go:71-78 | when every removal succeeds, no directory without a `".."` prefix is left, and exactly the other entries remain |
| Bpf.PinRoot.ReadDir | pkg/bpf/bpf.go:66-69 | an unreadable root gives the "failed to read directory" error with the path and the listing's own error; a readable one gives a listing naming every entry once with its kind, each name a single path component |
| Bpf.PinRoot.Unload | pkg/bpf/bpf.go:26-31 | for a single path component, the named subtree is removed unless its removal fails; a missing name is no error; the pin root keeps only such names |
| Bpf.PinRoot.Enable | pkg/bpf/bpf.go:57-59 | succeeds and changes nothing |
| Bpf.PinRoot.Disable | pkg/bpf/bpf.go:64-81 | an unreadable root is the "failed to read directory" error with the listing's own error, and removes nothing; otherwise no error, and the new pin root is `AfterDisable` of the old one |
| BpfRestrict.CommandName | bpf/bpfrestrict.c:118-125 | each blockable command has a non-empty, comma-free name |
| BpfRestrict.StrNCmpZero | bpf/bpfrestrict.c:106-112 | `strncmp(s, t, n) == 0` holds exactly when the first `n` characters of both, or the whole of a shorter one up to its terminator, are equal |
| BpfRestrict.StrStr | bpf/bpfrestrict.c:118-124 | `strstr` from a start index: a found index is at or after the start and `w` occurs there |
| BpfRestrict.StrNCmpLiteralIsPrefix | bpf/bpfrestrict.c:106-112 | `strncmp(s, lit, strlen(lit)) == 0` holds exactly when `lit` is a prefix of `s` |
| BpfRestrict.StrStrFindsFirst | bpf/bpfrestrict.c:118-124 | `strstr` finds an occurrence exactly when there is one, and finds the leftmost |
| BpfRestrict.StrStrIsInfix | bpf/bpfrestrict.c:118-124 | `strstr(s, w) != NULL` exactly when `w` occurs in `s` |
| BpfRestrict.ProfileTests | bpf/bpfrestrict.c:106-112 | each of the five `strncmp` tests is the prefix test for its literal; "allow" and "none" exclude "privileged" |
| BpfRestrict.ProfileLevel | bpf/bpfrestrict.c:103-115 | an absent profile gives ALLOW; a "restricted" prefix gives RESTRICTED, otherwise a "baseline" prefix BASELINE, and any other profile not starting with "privileged" ALLOW; the level stays 0 exactly for a "privileged" prefix; an "allow" or "none" prefix gives ALLOW |
| BpfRestrict.BlockMask | bpf/bpfrestrict.c:117-126 | the mask has only the four command bits, and is empty without a block argument |
| BpfRestrict.BlockMaskMembers | bpf/bpfrestrict.c:117-126 | a command's bit is set exactly when its name occurs in the block argument |
| BpfRestrict.BlockTests | bpf/bpfrestrict.c:117-126 | the four `strstr` results OR-ed together are exactly the mask |
| BpfRestrict.BlockMaskOfList | bpf/bpfrestrict.c:117-126 | the mask of `a,b` is the union of the masks of `a` and of `b` |
| BpfRestrict.BlockMaskOrderAndRepetition | bpf/bpfrestrict.c:117-126 | the mask ignores the order and the repetition of names |
| BpfRestrict.WrittenOptions | bpf/bpfrestrict.c:130-132 | the permission key is always written; the block key is written only for a non-empty mask, and otherwise keeps its old value |
| BpfRestrict.SuccessBanner | bpf/bpfrestrict.c:294-303 | the restricted and baseline banners are printed exactly for those levels; every other level gets the allow banner |
| BpfRestrict.BannerForProfile | bpf/bpfrestrict.c:294-303 | the restricted banner appears exactly for a "restricted" prefix and the baseline banner exactly for a "baseline" one; a "privileged" profile keeps level 0 and is announced as allow |
| BpfRestrict.Options.constructor | bpf/bpfrestrict.c:25-30 | `opt` starts zeroed and the option map empty |
| BpfRestrict.Options.ParseArg | bpf/bpfrestrict.c:59-84 | for an argument given as its bytes up to the NUL, `-b` is accepted exactly up to 127 bytes and `-p` up to 63, longer ones exit with the usage; `-h` exits with help; every other `int` key, argp's special keys included, is unknown; only the accepted argument is stored, and the stored arguments stay C strings |
| BpfRestrict.Options.SetupOptMap | bpf/bpfrestrict.c:87-135 | a negative map fd is returned with `*fd` and the map untouched and level and mask reset; otherwise 0, `*fd` set, level `ProfileLevel`, mask `BlockMask`, map `WrittenOptions` |
| BpfRestrict.Options.DecodeProfile | bpf/bpfrestrict.c:103-115 | the `strncmp` chain, run from the reset level, stores `ProfileLevel` of the profile |
| BpfRestrict.Options.DecodeBlock | bpf/bpfrestrict.c:117-126 | the `strstr` tests OR exactly `BlockMask` of the argument into the mask |
| BpfRestrict.Options.WriteOptionMap | bpf/bpfrestrict.c:130-132 | the map after the two updates is `WrittenOptions` of the old map |
| BpfRestrict.SetupEnvMap | bpf/bpfrestrict.c:155-180 | a held fd is kept and 0 returned; an error leaves `*fd` unchanged; the ns-map fd error or the pin error is returned; on success `*fd` is the ns-map fd |
| Logging.GetLogLevel | pkg/logging/logging.go:58-71 | the default Info level when the "level" key is absent or does not parse; the parsed level otherwise |
| Logging.ToLower | pkg/logging/logging.go:81 | same length, every character lowered independently |
| Logging.GetLogFormat | pkg/logging/logging.go:75-91 | text without the "format" key; json exactly when the lower-cased value is "json"; an exact name selects its own format; anything else gives text |
| Logging.ToLowerIdempotent | pkg/logging/logging.go:81 | lower-casing twice is lower-casing once |
| Logging.GetLogFormatIgnoresCase | pkg/logging/logging.go:81-90 | a value and its lower-cased form select the same format |
| Logging.FormatNameSelects | pkg/logging/logging.go:81-90 | each format is selected by its own name, and "JSON" and "Text" select json and text |
| Logging.ValidateOpts | pkg/logging/logging.go:196-216 | no error exactly when every key is supported and every key with a value list carries a listed value; a reported error names a real fault |
| Logging.EmptyOptionsAreValid | pkg/logging/logging.go:196-216 | empty options always pass |
| Logging.GetLogDriverConfig | pkg/logging/logging.go:220-232 | a sub-map of the options with the same values, keeping exactly the keys that contain the driver name |
| Logging.DriverLoopSucceeds | pkg/logging/logging.go:161-172 | the loop succeeds exactly when every driver is "syslog" and each of the setupSyslog calls, one per driver, succeeds; no drivers is no error |
| Logging.DriverOutcome | pkg/logging/logging.go:161-172 | the driver loop's outcome, with call `n` of setupSyslog for the `n`-th syslog driver: a syslog error comes from a listed syslog driver and carries the reason one of the calls returned |
| Logging.DriverLoopStopsAtFirstUnsupported | pkg/logging/logging.go:161-170 | the loop stops at the first driver that is not "syslog" and names it |
| Logging.DriverLoopStopsAtFirstSyslogFailure | pkg/logging/logging.go:161-166 | the loop stops at the first failing setupSyslog call, even after earlier calls succeeded, and reports its error |
| Logging.UnsupportedDriverIsListed | pkg/logging/logging.go:167-168 | an unsupported-driver error names a listed driver other than "syslog" |
| Logging.Logger.constructor | pkg/logging/logging.go:49-54 | the default logger starts at the Info level and the text format |
| Logging.Logger.SetLogLevel | pkg/logging/logging.go:113-115 | the logger's level becomes the given one |
| Logging.Logger.SetDefaultLogLevel | pkg/logging/logging.go:118-120 | the logger's level becomes Info |
| Logging.Logger.SetLogLevelToDebug | pkg/logging/logging.go:123-125 | the logger's level becomes Debug |
| Logging.Logger.SetLogFormat | pkg/logging/logging.go:128-130 | the logger's format becomes the given one |
| Logging.Logger.SetDefaultLogFormat | pkg/logging/logging.go:133-135 | the logger's format becomes text |
| Logging.Logger.SetupLogging | pkg/logging/logging.go:139-173 | the format comes from the options; the level is Debug under `debug` and from the options otherwise; the error is the driver loop's outcome, with setupSyslog called once per syslog driver |
| Logging.CanLogAt | pkg/logging/logging.go:245-247 | true exactly when the logger's level is at least the given level |
| Logging.GetLevel | pkg/logging/logging.go:250-252 | the level read is the logger's current level |
| Logging.CanLogAtMoreSevere | pkg/logging/logging.go:245-247 | a logger that logs at a level logs at every more severe level |
| Logging.LinesHaveNoNewline | pkg/logging/logging.go:236-241 | no logged line contains a newline |
| Logging.UnlinesLines | pkg/logging/logging.go:236-241 | without carriage returns, the logged lines each followed by a newline rebuild the output, plus a final newline if it lacked one |
| Logging.MultiLine | pkg/logging/logging.go:236-241 | the lines handed to the log function, in order, are exactly the scanner's lines of the output |
| Logging.Lines | pkg/logging/logging.go:237-240 | `bufio.ScanLines` on the output: pieces up to each newline with one trailing carriage return dropped, plus an unterminated final piece; no more lines than characters, and none exactly for empty output |

## Left out

- **Subprocess and filesystem.**
  - The `bpftool` subprocess, its timeout and its path are not modelled; the tool is a parameter of `GetProgID`, a function from arguments to outcome.
  - `ioutil.ReadDir` and `os.RemoveAll` act on the abstract pin root.
  - The pin path comes from `MapPrefixPath`, which is not part of this model, so it is a field of the pin root. The `filepath.Join` of that path with a program name is not modelled.
- **GetProgID**: requires non-blank output when the tool succeeds. On blank output the code indexes an empty slice and panics, and the model does not represent a panic.
- **ReadDir**: the listing is built in an arbitrary order, where Go sorts it by name. The final state of `Disable` does not depend on the order.
- **Unload**: a failing `os.RemoveAll` leaves the whole entry in place. A removal that fails part-way and deletes part of a subtree is not modelled.
- Bpf.PinRoot.Unload: requires its name to be a single path component (not empty, no `/`, not `.` or `..`), as every name a directory listing yields is. For other names `filepath.Join` would reach the pin root itself, its parent or a nested path, and that is not modelled. The only caller passes listed names.
- **bpf.go logging**: the calls that log (the `Infof` in `bpftoolUnload`, the `Debug` in `bpftoolGetProgID`) are left out, since they only write output.
- **libbpf and the kernel.**
  - These are not modelled: `main`'s open/load/pin/attach sequence, `is_lsmbpf_supported`, `bump_memlock_rlimit`, the "already loaded" check and `reuse_ns_map` (which always returns 0).
  - `bpf_map__fd` and `pin_init_task_ns` are not modelled either; what they return is a parameter of `SetupOptMap` and `SetupEnvMap`.
  - The option map is reduced to which keys hold which values.
- **BPFLOCK constants**: the `BPFLOCK_*` values come from a header that is not part of this model. The model assumes the three profile values are distinct and non-zero, and the four command bits are distinct single bits, none of them the sign bit of `int`, so that `opt.block_op_int > 0` in bpfrestrict.c:131 holds exactly for a non-empty mask.
- BpfRestrict.Options.ParseArg: a `string` in `BpfRestrict` stands for a C string's bytes before its terminating NUL, one `char` per byte, so `|arg|` is `strlen(arg)`. `ParseArg` requires such an argument (`IsCString`), and `Options.Valid` keeps the stored arguments so. `BlockMask`, `ProfileLevel` and the string functions are stated for any `string`; on one holding a NUL they do not match C, which stops at the NUL.
- **argp**: its printing and exiting are reduced to the `ArgOutcome` that `ParseArg` returns. A failing `strndup` is not modelled.
- **The banner**: the printed message texts and the pin path they contain are reduced to the three `Banner` values.
- **logrus internals.**
  - These are not modelled: the formatters (`GetFormatter`), `SetOutput`, `logrus.SetLevel(PanicLevel)` on the standard logger, `GetLogSubsys`/`GetLogBpfsubsys`, the warnings GetLogLevel and GetLogFormat log, and the atomic load in `GetLevel`.
  - `logrus.ParseLevel` is a parameter, an arbitrary partial function.
  - `setupSyslog`, which is not part of this model, is reduced to its outcomes: a parameter giving what its n-th call returns.
- Logging.Logger.SetLogFormat: the model's `LogFormat` has only the two values text and json. In Go `LogFormat` is a string, and any other string is accepted by `SetLogFormat`; `GetFormatter` (pkg/logging/logging.go:177-190) then returns a nil formatter. Such formats and the nil formatter are not represented.
- **ToLower**: lowers only the ASCII letters. No other character lowers to a letter of "text" or "json", so the format choice is the same as with full Unicode case mapping.
- **GetLogDriverConfig**: requires a driver name without regexp metacharacters. For other names, Go's regexp semantics and the `Fatal` on a pattern that does not compile are not modelled.
- **MultiLine**: the scanner's 64 KiB token limit is not modelled. A longer line stops Go's scanner early, while the model returns every line.
- **Other files**: `api/v1/restapi/embedded_spec.go` (a generated schema constant) and `pkg/defaults/defaults.go` (path constants) are not part of this model.

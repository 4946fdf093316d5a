# ae: error chains with lazily resolved stacks, in Dafny

This project models the core of `ae`, a Go package that wraps errors. An
application error (`appError`, here `Errors.AppError`) holds two things:

- the ordered list of its causes, root first and newest annotation last;
- the raw program counters of the call stack, captured once, when the chain
  is created.

The wrap operations behave as follows:

- `Wrap`, `Wrapf` and `Errorf` turn a plain error into a new chain.
- Given an existing chain, they extend it in place and return the same
  object, without capturing the stack again.
- Given nil, they return nil.

The combined message lists the causes newest first, separated by `": "`.
The stack is resolved into frames only when first asked for, and the frames
are kept. Each frame shows file, line, function name and the trimmed source
line.

Files:

- `optional.dfy`: the `Option` value used for readable-or-not files and the
  nil-or-not frame cache.
- `strings.dfy`: the string operations the package uses (`strings.Split`,
  `strings.Trim`, `strings.Contains`, decimal printing), each specified and
  proved, and `Join`, the reference definition that the package's
  `bytes.Buffer` loops are proved equal to.
- `stack.dfy`: chunked stack capture (`GetStackPC`), resolution (`Resolve`,
  `Frame`), source-line lookup (`GetFileLine`), and the stack and log texts.
- `errors.dfy`: the `Error` interface value, the `AppError` class, and the
  wrap operations.
- `errors_test.dfy`: the package's test cases replayed as clients of the
  contracts.

The Go runtime and the file system are given as an oracle. `callers` is the
call stack as `runtime.Callers` lists it from inside `getStackPC`, innermost
first. `Symbols` holds `funcName`, `fileLine` and `readFile`. One assumption is
made about `Symbols`: a readable file never comes with a line number below 1
(`Symbols.Sane`). Go's `FileLine` returns line 0 only for a program counter
it cannot place, and then the file name is `"?"`. The case this assumption
excludes is listed under "Left out".

The model follows the code as written, including these easily missed
details:

- `getFileLine` answers `"[line not found]"` when `line >= len(lines)`. So
  the last line of a file that has no final newline is never found.
  `StackTrace.UnterminatedLastLineIsNotFound` shows this, and
  `StackTrace.TerminatedLinesAreFound` shows that every line ending in a
  newline is found.
- `errorMsgs` writes `": "` only once the buffer is non-empty. An empty
  message therefore drops a separator. The combined message equals the
  reversed messages joined by `": "` only when no message is empty
  (`Errors.CombinedIsReverseJoin`).
- `Errors.AppError.PrintTolog` resolves the stack, and `Errors.AppError.Error`
  resolves it when either toggle is on. The log side effect is returned as a
  value.
- The frame cache is never refreshed. Once it is filled, `Stack`,
  `PrintTolog` and `Error` print the kept frames, even if the symbols or the
  source files have changed since (`Errors.AppError.Frames`).

## Model

| member | source | states |
|---|---|---|
| `Errors.WrapF` | errors.go:97-118 | nil gives nil. A chain gets the extra errors appended in place and is returned as the same object: earlier causes, root, stack and cache are unchanged. A plain error gives a fresh chain `[e] + extras`, with the stack from the wrap function's caller on and an empty cache. The result always satisfies the chain invariant. |
| `Errors.Wrap` | errors.go:83-86 | nil gives nil. Wrapping a chain returns that same chain with causes and cache unchanged (idempotent). A plain error becomes the only cause of a fresh chain with a freshly captured stack. |
| `Errors.Wrapf` | errors.go:88-95 | nil gives nil and nothing is changed. For a chain, the message is appended in place as the newest cause and the same object is returned with the same stack. A plain error gives a fresh chain `[e, message]`. |
| `Errors.Errorf` | errors.go:78-81 | Always a fresh chain whose only cause is the message, with the stack from the caller on. |
| `Errors.AppError.constructor` | errors.go:113-117 | A new chain holds the given causes (a root and plain annotations) and raw stack, its frame cache is nil, and it satisfies the chain invariant. |
| `Errors.AppError.First` | errors.go:52-54 | The root cause: the first entry, always a plain error, never a nested chain. |
| `Errors.AppError.Last` | errors.go:56-58 | The newest annotation: the last entry, always a plain error. |
| `Errors.AppError.Errors` | errors.go:60-62 | The causes, non-empty and all plain. The first is `First()` and the last is `Last()`. |
| `Errors.AppError.ErrorMsgs` | errors.go:64-76 | The reverse-index loop leaves in its buffer the messages written newest first, with `": "` only before a message written into a non-empty buffer. The result starts with the newest message. |
| `Errors.CombinedStartsWithNewest` | errors.go:64-76 | The combined message starts with the newest cause's message. |
| `Errors.CombinedIsReverseJoin` | errors.go:64-76 | When no message is empty, the combined message equals the messages from newest to root joined by `": "`. |
| `Errors.AnnotationGoesFirst` | errors.go:104-108 | Appending a non-empty message to a chain of non-empty messages turns the combined message `M` into `message + ": " + M`. |
| `Errors.AppError.Error` | errors.go:42-50 | With the stack toggle on, the result is the combined message, then `"; "`, then the stack text of the frames: the cached ones if the cache was already filled, otherwise the freshly resolved stack. With it off, the result is the combined message alone. Either way the result starts with the combined message. With the log toggle on, the log text of those same frames is produced. This call fills the cache when either toggle is on, and otherwise leaves the cache as it was. |
| `Errors.AppError.GetStack` | stack.go:38-53 | Memoised resolution. On the first call (nil cache) the loop fills the cache with `Resolve(stack)`, at most one frame per raw program counter; the result is non-nil even when it is empty. Once filled, the cache is returned as it is and kept unchanged, whatever symbols are passed later. Only the cache field may change. |
| `Errors.AppError.Stack` | stack.go:20-29 | The buffer loop leaves the stack text of the frames the cache held before the call, or of the freshly resolved stack when the cache was nil; the cache holds those frames afterwards. |
| `Errors.AppError.PrintTolog` | stack.go:74-84 | The logged text is the combined message, a newline, then one block per frame: the cached frames, or the freshly resolved stack when the cache was nil. The cache holds those frames afterwards. |
| `Errors.StackStartsAtCaller` | errors.go:115-116 | A new chain's stack starts at the caller of `Wrap`/`Wrapf`/`Errorf`, past `runtime.Callers`, `getStackPC`, `wrapF` and the exported function. When that frame is not a runtime dispatch frame, the first stack part is its frame and shows its function name followed by `": "`. |
| `Errors.DeepStacksAreKept` | stack.go:42-50 | Resolution of the stack a new chain captures (through `getStackPC`, stack.go:87-98): when no frame above the wrap site is a runtime dispatch frame, every captured frame is resolved, however deep the stack. |
| `StackTrace.GetStackPC` | stack.go:86-98 | The chunked read loop returns exactly the call stack from offset `skip + 2` to its end, with chunks concatenated in order. It stops on the first short read, which may be empty, and the depth is not limited to one buffer. |
| `StackTrace.Resolve` | stack.go:42-50 | The resolved frames are the frames of the longest prefix of the raw stack with no function name containing `"runtime.call64"`, in capture order. The frame just past them, if any, is such a dispatch frame. |
| `StackTrace.Frame` | stack.go:55-58 | A frame carries the function name, file and line the runtime reports for its program counter, and the line text `getFileLine` finds: `"[file not found]"` for an unreadable file, `"[line not found]"` past the last newline-terminated line, and otherwise the trimmed source line. |
| `StackTrace.GetFileLine` | stack.go:60-72 | An unreadable file gives `"[file not found]"`. A line number above the count of newlines gives `"[line not found]"`. Otherwise the result is the trimmed `line`-th piece, with no blank at either end. Line numbers below 1 are excluded only when the file is readable, because only then does the source index with `line-1`. |
| `StackTrace.TerminatedLinesAreFound` | stack.go:65-71 | In a file whose lines all end with a newline, every line `1..n` is found and comes back trimmed. |
| `StackTrace.UnterminatedLastLineIsNotFound` | stack.go:66-69 | In a file without a final newline, the last line is reported as `"[line not found]"`. |
| `StackTrace.StackTextIsJoin` | stack.go:20-29 | The separator-when-non-empty buffer loop over frames equals the formatted frames joined by `"; "`: no separator at either end, and `""` exactly when there are no frames. |
| `StackTrace.StackTextStartsWithFirstFrame` | stack.go:20-29 | The stack text starts with the innermost formatted frame, which shows that frame's function name followed by `": "`. |
| `StackTrace.FormatFrameShowsFuncName` | stack.go:26 | A formatted frame `file:line funcName: lineContents` holds `funcName + ": "` right after `file:line `. |
| `StackTrace.WriteFrames` | stack.go:21-28 | The buffer loop of `Stack` leaves exactly the stack text of the frames (joined by `"; "`, by `StackTrace.StackTextIsJoin`). |
| `StackTrace.WriteLog` | stack.go:76-82 | The buffer loop of `PrintTolog` leaves the messages, a newline, then for each frame `"  file:line\n    funcName: lineContents\n"` in order. |
| `StackTrace.LogEntriesAreTwoLinesEach` | stack.go:80-82 | When no frame text holds a newline, the log has exactly two lines per frame after the message line. |
| `Strings.Split` | stack.go:66 | `strings.Split` on one character gives count-of-separators + 1 pieces, none holding the separator, and joining them back gives the input. |
| `Strings.SplitOfJoin` | stack.go:66 | Splitting undoes joining for pieces without the separator. |
| `Strings.Trim` | stack.go:71 | `strings.Trim(s, " \t")` leaves no blank at either end, and only removes runs of blanks at the two ends. |
| `Strings.ContainsAt` | stack.go:46 | `strings.Contains` holds exactly when the substring occurs at some index, in both directions. |
| `Strings.NatToDecimal` | stack.go:26 | `%v` of a non-negative int: a non-empty string of decimal digits, without a leading zero, whose value (`DigitsValue`) is the number itself. |

## Left out

- `runtime.Callers`, `runtime.FuncForPC` and `Func.FileLine` are foreign runtime calls. They are an oracle: the `callers` sequence and the `Symbols` functions. Inlined frames and the runtime's own skip details are not modelled.
- `ioutil.ReadFile` is file I/O. `Symbols.readFile` gives the contents, or `None` when the file cannot be read.
- `log.Println` is a log sink. `PrintTolog` returns the text it would log, and `Error` returns it as `logged`. The logger's own prefix and final newline are not modelled.
- `IncludeStackInError` and `PrintToLog` are process-wide variables. They are parameters of `Error`.
- `fmt.Errorf` and `fmt.Sprintf` are formatting of arbitrary arguments. Formatted messages are given as ready strings, and integers print through a decimal conversion.
- Errors.Wrapf: formatting happens outside the model, so the source's promise not to format the message when the error is nil shows only as "nil gives nil with nothing changed".
- Go compares `errors.New` values by pointer. Plain errors here are compared by message.
- A typed nil `*appError` inside a non-nil `error` is not modelled.
- `Symbols.Sane` excludes one runtime case: a program counter the runtime cannot place gives file `"?"` and line 0, and if a file named `?` can be read from the working directory, stack.go:71 indexes `lines[-1]` and panics. The model does not capture that panic.
- `Errors()` returns the slice itself in Go, so later appends may show through it, and a caller writing `e.Errors()[0] = x` replaces the chain's root. Here it returns a sequence value, so the root never changing (`Errors.WrapF` keeps `First()`) holds only because the model has no such write.
- Concurrent use is not modelled. The source has no synchronisation on `underlying` or on `frameCache`.

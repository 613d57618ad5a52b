# Verified model of the uefi-rs text console output and its error value

This project models two pieces of the `uefi` crate in Dafny:

- the wrapper around the firmware's text output protocol
  (`EFI_SIMPLE_TEXT_OUTPUT_PROTOCOL`, section 12.4 of the UEFI Specification):
  - its accessors;
  - the mode iterator;
  - the buffered `fmt::Write::write_str`, which stages UCS-2 code units in a
    129-unit buffer, expands each line feed to carriage return plus line feed,
    flushes full 128-unit buffers, and, when every character encodes and every
    full-buffer flush succeeds, ends with one final flush of the remainder;
- the crate's `Error<Data>` value: a non-success status with a payload.

Files:

| file | module | models |
|---|---|---|
| `status.dfy` | `StatusCodes` | the 64-bit status word and the three status codes the wrapper names, with the values of Appendix D of the UEFI Specification |
| `error.dfy` | `Errors` | `uefi/src/result/error.rs` |
| `result.dfy` | `Results` | the status-to-result conversion (`into`, `into_with_val`, `handle_warning`), which the crate defines outside the modelled files |
| `staging.dfy` | `Staging` | which code units `write_str` stages and how they are cut into chunks |
| `output.dfy` | `TextOutput` | `uefi/src/proto/console/text/output.rs`: `Output` as a class, `OutputModeIter` as a class, `OutputData`, `OutputMode`, `Color` |

How the firmware is modelled:

- Each entry point of the capability table is a `const` field of class
  `Output` holding a function.
- The function takes the device's auxiliary state (`OutputData`) and the
  call's arguments. It returns the status the firmware answers and the
  auxiliary state after the call.
- The wrapper methods call these functions and store the new state. They
  never write the state on their own.
- A ghost `log` records each string passed to `output_string`, with the
  status the firmware returned.
- `query_mode` and `test_string` are modelled as leaving the state unchanged.
  The wrapper calls `query_mode` through `&self`.

How `write_str` is specified:

- `WritePlan(s)` lists, in order, the chunks the algorithm tries to flush:
  - every full 128-unit buffer of the staged stream;
  - then the remainder, possibly empty, when every character was encoded.
- `Issue` flushes a list of chunks and stops at the first failure.
- `Output.WriteStr` proves, using the loop over the real array, that its
  calls and its result are exactly those of `Issue(.., WritePlan(s))`.
- The lemmas in `Staging` and `TextOutput` state what those calls add up to:
  - chunk sizes;
  - success delivers the expanded input;
  - no write after a failure;
  - an input of exactly `n * 128` units gives `n` full writes plus one empty
    final write.

Assumed behaviour of code that is not part of this model:

- **Status conversion.** SUCCESS becomes `Ok`. Any other status, warnings
  included, becomes `Err` with a payload-free error carrying that status.
  `handle_warning` passes an error to its closure only when the status is a
  warning: non-zero, with the top bit clear.
- **`ucs2::encode_with`.** A character below U+10000 becomes one code unit.
  Any other character stops the encoding with an error. That error comes
  after the flushes of the buffers already filled.
- **`CStr16::from_u16_with_nul`.** It accepts a unit sequence exactly when the
  last unit is 0 and no other unit is 0. So an input character U+0000 makes
  the flush that carries it fail, before the firmware is called.

Two consequences of the code worth keeping in mind:

- The error's display text starts with `UEFI Error ` (`Errors.Display`).
- An input of exactly `2 * 128` units without line feeds makes three calls of
  `output_string`: two full buffers and one empty final flush
  (`Staging.WholeBuffersEndWithEmptyFlush`).

## Model

| member | source | states |
|---|---|---|
| `Errors.New` | uefi/src/result/error.rs:15-24 | needs a status other than SUCCESS; the error it builds is valid and gives back exactly that status and payload |
| `Errors.Split` | uefi/src/result/error.rs:36-40 | the parts of a valid error have a non-success status, and `New` rebuilds the same error from them |
| `Errors.FromStatus` | uefi/src/result/error.rs:43-49 | a non-success status converts to a valid payload-free error with that status |
| `Errors.StatusOf` | uefi/src/result/error.rs:26-29 | the status of a valid error is never SUCCESS, and with the payload it makes up the whole error |
| `Errors.DataOf` | uefi/src/result/error.rs:31-34 | the payload, which with the status makes up the whole error |
| `Errors.Display` | uefi/src/result/error.rs:51-55 | the text is "UEFI Error ", then the status text, then ": ", then the payload's debug text, with matching length |
| `Errors.NewThenAccessors` | uefi/src/result/error.rs:26-40 | `status()`, `data()` and `split()` return exactly what `new` was given |
| `Errors.FromStatusInjective` | uefi/src/result/error.rs:45-49 | the conversion from a status loses nothing: two errors are equal exactly when their statuses are |
| `Errors.EqualityIsStructural` | uefi/src/result/error.rs:9-13 | two errors are equal exactly when their statuses and their payloads are equal |
| `Errors.DisplayKeepsPayload` | uefi/src/result/error.rs:51-55 | two errors with the same status display alike only if their payloads' debug texts agree |
| `Results.IntoWithVal` | uefi/src/proto/console/text/output.rs:107-110 | `Ok(val)` exactly on SUCCESS; otherwise a valid error carrying that status |
| `Results.Into` | uefi/src/proto/console/text/output.rs:44-47 | `Ok` exactly on SUCCESS; otherwise the payload-free error of that status |
| `Results.HandleWarning` | uefi/src/proto/console/text/output.rs:66 | assumed behaviour of the crate's `handle_warning`: an error whose status is a warning goes to `op`, every other outcome passes unchanged; what the model relies on is pinned down through `TextOutput.SwallowUnknownGlyph`'s ensures |
| `Results.IntoIsLossless` | uefi/src/result/error.rs:43-49 | the status a converted outcome stands for is the status it came from |
| `Staging.ExpandChar` | uefi/src/proto/console/text/output.rs:215-221 | a line feed is staged as two units, carriage return first; any other character as its one unit; the last unit is the character itself |
| `Staging.EncodedUnitsAppend` | uefi/src/proto/console/text/output.rs:223-224 | staging proceeds character by character: the units for `a + b` are those of `a` then those of `b`, when `a` encodes |
| `Staging.EncodedUnitsStep` | uefi/src/proto/console/text/output.rs:202-221 | one more encodable character appends its units, and the rest of the input's units follow |
| `Staging.EncodedUnitsStop` | uefi/src/proto/console/text/output.rs:223-224 | at the first character without a UCS-2 encoding the input is not encodable and no further units are staged |
| `Staging.NewlineBecomesCrLf` | uefi/src/proto/console/text/output.rs:215-221 | a line feed becomes a carriage return immediately followed by a line feed; everything around it keeps its order |
| `Staging.NoNewlineIsIdentity` | uefi/src/proto/console/text/output.rs:202-206 | without line feeds each character becomes exactly its own code unit, in order |
| `Staging.EncodedLength` | uefi/src/proto/console/text/output.rs:215-221 | the staged stream is as long as the input plus its number of line feeds |
| `Staging.FlattenAppend` | uefi/src/proto/console/text/output.rs:190-198 | concatenating the flushed chunks distributes over appending chunk lists |
| `Staging.BlocksCover` | uefi/src/proto/console/text/output.rs:202-213 | the full buffers and then the remainder give back the stream; there is one full buffer of 128 units per whole 128 units of the stream, and the remainder holds the stream's length modulo 128 |
| `Staging.BlocksSnoc` | uefi/src/proto/console/text/output.rs:205-212 | staging one unit either completes and flushes a buffer, leaving it empty, or grows the remainder by that unit |
| `Staging.BlocksOfPrefix` | uefi/src/proto/console/text/output.rs:202-213 | the full buffers of a prefix of a stream begin the full buffers of the stream |
| `Staging.ChunksCover` | uefi/src/proto/console/text/output.rs:183-227 | a fully staged stream of n units is written as n / 128 + 1 chunks that concatenate to it; all but the last hold 128 units; the final flush holds fewer, and none exactly when the stream fills whole buffers |
| `Staging.PlanBeginsWithBlocks` | uefi/src/proto/console/text/output.rs:202-224 | however far staging got, the buffers flushed so far begin the planned chunk list |
| `Staging.PlanChunksFit` | uefi/src/proto/console/text/output.rs:183-185 | every planned chunk fits the 128-unit buffer |
| `Staging.WholeBuffersEndWithEmptyFlush` | uefi/src/proto/console/text/output.rs:190-198 | without line feeds, `n * 128` characters give `n` full chunks and then one empty final chunk |
| `TextOutput.UsizeFromI32` | uefi/src/proto/console/text/output.rs:146-150 | the `as usize` cast of a 32-bit field is the value modulo 2^64 |
| `TextOutput.ColorIndex` | uefi/src/proto/console/text/output.rs:336-359 | every colour number is below 16 |
| `TextOutput.ColorWord` | uefi/src/proto/console/text/output.rs:164-165 | the colour as a machine word has the colour's number |
| `TextOutput.PackAttribute` | uefi/src/proto/console/text/output.rs:163-171 | for a background among the first eight, the packed attribute (background masked to 3 bits and shifted left by 4, or-ed with the foreground masked to 4 bits) equals `16 * bg + fg` |
| `TextOutput.PackBits` | uefi/src/proto/console/text/output.rs:169 | with fields in range, the mask-shift-or layout equals the arithmetic sum |
| `TextOutput.AttributeDecodes` | uefi/src/proto/console/text/output.rs:169 | the attribute is below 128, and foreground and background read back from its low and high nibbles |
| `TextOutput.IssueAppend` | uefi/src/proto/console/text/output.rs:190-198 | after a successful run of flushes, flushing one more chunk appends exactly that chunk's call |
| `TextOutput.IssueStopsAtFailure` | uefi/src/proto/console/text/output.rs:195-197 | once a flush has failed, no chunk planned after it is written; writes already made stay |
| `TextOutput.IssueShape` | uefi/src/proto/console/text/output.rs:189-198 | the k-th call carries the k-th chunk and one terminating zero; all calls but the last answered SUCCESS; success means one call per chunk, all answering SUCCESS; failure ends at a call that did not answer SUCCESS or at a chunk rejected before any call |
| `TextOutput.IssueDelivers` | uefi/src/proto/console/text/output.rs:190-198 | a successful run delivers, terminators removed, exactly the concatenation of its chunks |
| `TextOutput.WriteStrDelivers` | uefi/src/proto/console/text/output.rs:202-227 | a successful `write_str` delivers exactly the input's code units with a carriage return before each line feed |
| `TextOutput.WriteStrCalls` | uefi/src/proto/console/text/output.rs:190-198 | every call of `write_str` carries at most 128 units and ends in its one zero; a successful write makes one call per full buffer plus one final call |
| `TextOutput.SwallowUnknownGlyph` | uefi/src/proto/console/text/output.rs:65-73 | an error with status WARN_UNKNOWN_GLYPH becomes `Ok(())`; every other outcome is returned unchanged |
| `TextOutput.LossyOutcome` | uefi/src/proto/console/text/output.rs:62-73 | the lossy write succeeds exactly on SUCCESS or WARN_UNKNOWN_GLYPH; otherwise it fails with the firmware's status |
| `TextOutput.TestStringOutcome` | uefi/src/proto/console/text/output.rs:79-84 | `Ok(false)` exactly on UNSUPPORTED, `Ok(true)` exactly on SUCCESS, otherwise an error carrying the firmware's status |
| `TextOutput.ModesFromExactly` | uefi/src/proto/console/text/output.rs:301-314 | the modes yielded are exactly the indices in `[from, max)` whose query succeeds, each with its queried dimensions; a failing index does not stop the enumeration |
| `TextOutput.ModesFromAscending` | uefi/src/proto/console/text/output.rs:301-314 | the modes come in strictly ascending index order |
| `TextOutput.FourModesSkipUnsupported` | uefi/src/proto/console/text/output.rs:88-95 | a device with four modes, of which mode 2 is unsupported, enumerates modes 0, 1 and 3 |
| `TextOutput.Output.Reset` | uefi/src/proto/console/text/output.rs:44-47 | calls the reset entry point, stores the new state, returns its status as an outcome |
| `TextOutput.Output.Clear` | uefi/src/proto/console/text/output.rs:49-55 | calls the clear-screen entry point, stores the new state, returns its status as an outcome |
| `TextOutput.Output.OutputString` | uefi/src/proto/console/text/output.rs:57-60 | calls the output entry point once; logs the string with the answered status; any status but SUCCESS is an error |
| `TextOutput.Output.OutputStringLossy` | uefi/src/proto/console/text/output.rs:62-73 | writes once, like `OutputString`, and returns the outcome with the unknown-glyph warning swallowed |
| `TextOutput.Output.TestString` | uefi/src/proto/console/text/output.rs:75-84 | returns the remapping of the firmware's test answer for the string |
| `TextOutput.Output.Modes` | uefi/src/proto/console/text/output.rs:86-95 | a fresh iterator over this device, starting at 0, with `max` equal to `max_mode as usize` read once |
| `TextOutput.Output.QueryMode` | uefi/src/proto/console/text/output.rs:97-110 | succeeds exactly when the firmware answers SUCCESS, then with the reported (columns, rows); otherwise fails with that status |
| `TextOutput.Output.CurrentMode` | uefi/src/proto/console/text/output.rs:112-123 | needs a mode field of at least -1; `Ok(None)` exactly when it is -1; otherwise the mode with that index and its queried dimensions, or the query's own error |
| `TextOutput.Output.SetMode` | uefi/src/proto/console/text/output.rs:125-128 | calls set-mode with the mode's index, stores the new state, returns its status as an outcome |
| `TextOutput.Output.EnableCursor` | uefi/src/proto/console/text/output.rs:136-142 | calls enable-cursor, stores the new state, returns its status as an outcome |
| `TextOutput.Output.CursorPosition` | uefi/src/proto/console/text/output.rs:144-150 | non-negative cursor fields are returned as they are |
| `TextOutput.Output.SetCursorPosition` | uefi/src/proto/console/text/output.rs:152-157 | calls set-cursor-position with no local bounds check, stores the new state, returns its status as an outcome |
| `TextOutput.Output.SetColor` | uefi/src/proto/console/text/output.rs:159-171 | needs a background among the first eight colours; calls set-attribute once with `16 * bg + fg`, stores the new state, returns its status as an outcome |
| `TextOutput.Output.Flush` | uefi/src/proto/console/text/output.rs:189-198 | terminates the staged units with a zero and flushes them as one chunk: the calls and the outcome are those of `Issue` on that chunk |
| `TextOutput.Output.Stage` | uefi/src/proto/console/text/output.rs:200-213 | stages one unit and flushes when 128 are staged: either the staging invariant (index below 128, buffer holds the remainder, all full buffers flushed) holds for the longer stream, or the flush of its last full buffer failed |
| `TextOutput.Output.StageChar` | uefi/src/proto/console/text/output.rs:215-221 | stages a character's units (carriage return first for a line feed); on failure the calls made are exactly those of the whole planned write |
| `TextOutput.Output.WriteStr` | uefi/src/proto/console/text/output.rs:180-228 | the calls `write_str` makes and the state it leaves are exactly those of flushing `WritePlan(s)` in order; it succeeds exactly when every character encodes and every flush succeeds |
| `TextOutput.OutputModeIter.Next` | uefi/src/proto/console/text/output.rs:301-314 | returns the next index whose query succeeds, with its dimensions; skips failing indices; what remains to be yielded shrinks by exactly the returned mode; `None` leaves the iterator at `max` |

## Left out

- The firmware itself: what the entry points do on the screen. Each entry
  point is an arbitrary function from state and arguments to status and new
  state.
- The `efiapi` calling convention, the `#[repr(C)]` layout, the protocol GUID
  and the raw pointer read in `data()`. The auxiliary state is a plain field.
- The `Debug` impl of `Output`, which prints function-pointer addresses. It
  has no behaviour to prove.
- The `core::error::Error` marker impl. It has no behaviour to prove.
- The numeric table of status codes. Only SUCCESS, WARN_UNKNOWN_GLYPH and
  UNSUPPORTED are named, plus the error bit. They use the values of Appendix D
  of the UEFI Specification.
- How a status is displayed and how a payload is debug-printed. Both are
  parameters of `Errors.Display`.
- The surrogate check of `CStr16::from_u16_with_nul`. Dafny characters are
  Unicode scalar values, so the encoder never produces a surrogate.
- The reason `write_str` fails. `fmt::Error` carries no information, and the
  model returns `false`.
- The panics of `Error::new` (status SUCCESS, also reached through the
  conversion from a status), of `set_color` (background of 8 or more) and of
  `current_mode` (mode field below -1). They are preconditions of
  `Errors.New`, `Errors.FromStatus`, `Output.SetColor` and
  `Output.CurrentMode` and have no error path.
- Targets other than 64-bit ones. Only a 64-bit `usize` is modelled: this
  fixes `ERROR_BIT`, the value of `UNSUPPORTED` and the wrap-around of
  `as usize` modulo 2^64. On a 32-bit target the status word and the
  wrap-around are 32 bits wide.
- `cursor_visible` and the `OutputMode` accessors `index`, `columns` and
  `rows`. They are plain field reads, modelled as `Output.CursorVisible` and
  `OutputMode.Index`, `Columns` and `Rows`, without contracts of their own.
- TextOutput.Output.CursorPosition: its ensures states only the case of
  non-negative fields. Negative fields go through `UsizeFromI32`, whose
  contract states the wrap-around.
- Concurrency. The protocol is single-threaded.
- The build and test tool (`xtask`). It only orchestrates processes.

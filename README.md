# cervus IR construction and the old response glue, in Dafny

This project models two small parts of IceCore.

**The cervus JIT engine's IR-construction layer** (`src/cervus/engine.rs`). A `Module` holds its
functions in declaration order. A `Function` has a name, a return type and a fixed list of
parameter types, and holds its basic blocks in creation order. A `BasicBlock` holds its
instructions in emission order. A `Builder` is a cursor at the end of one block. It has its own
`u32` counter, `nextActionId`, starting at 0. Applying an `Action` (`Add` or `Return`) consumes
the next counter value. An addition is named `action_<n>`. A return consumes a number too, but
carries no name. `ExecutionEngine::new` verifies the module and then asks the backend for an
engine. A broken module aborts the process, and a failed creation panics. The backend (LLVM) is
not modelled: the results of its verify and create calls are inputs (`VerifyCall`,
`CreateCall`).

**The old HTTP glue's response wrapper** (`src/glue_old.rs`). `Response::from_raw` refuses the
null handle. Dropping a response destroys a non-zero handle and then zeroes it, so the handle is
destroyed at most once. `get_file` maps the runtime's empty string to `None`.
`transform_header_name` upper-cases (ASCII) the first character of a header name and every
character that follows a `-`. The runtime's getters are inputs: `fileOf` is a function from
handles to strings, and `Runtime.destroyed` records the destroy calls.

Files: `wrappers.dfy` (`Option`, `Outcome`), `engine.dfy` (module `Engine`), `glue.dfy` (module
`Glue`).

## Model

| member | source | states |
|---|---|---|
| `Engine.Module.constructor` | src/cervus/engine.rs:16-22 | a new module has the given name and no functions |
| `Engine.Function.constructor` | src/cervus/engine.rs:66-84 | records name, return type and parameter types unchanged (they are `const` afterwards); the backend function type has exactly those parameter types in order and is not variadic; the function is appended at the end of the module's function list and starts with no blocks |
| `Engine.Function.GetParam` | src/cervus/engine.rs:86-96 | `Some` exactly when `index` is below the number of parameter types, and then the value is parameter `index` of this function; otherwise `None`, never a failure |
| `Engine.BasicBlock.constructor` | src/cervus/engine.rs:106-116 | the new, empty block is appended at the end of its function's block list and the earlier blocks stay as they were, so block order is creation order |
| `Engine.Builder.constructor` | src/cervus/engine.rs:126-137 | a new builder is bound to the given block, its counter is 0 and it has consumed no names |
| `Engine.Builder.Append` | src/cervus/engine.rs:139-141 | below the `u32` limit: the counter grows by exactly one for both variants, the consumed name is `action_<new counter>`, and exactly one instruction is appended at the end of the block (an `Add` with that name and its operands, or a `Return` of its value with no name); at the limit: an overflow panic and no change |
| `Engine.Builder.Drop` | src/cervus/engine.rs:144-150 | the builder's cursor is released once, whatever the number of appends; the counter is untouched |
| `Engine.Action.Build` | src/cervus/engine.rs:161-172 | the same counter and block effect as `Append`, and it returns the emitted instruction |
| `Engine.Decimal` | src/cervus/engine.rs:164 | the text `format!` gives a counter value: at least one digit, only digits, no leading zero, one digit exactly below 10, and read back left to right (`DigitsValue`) the digits spell the number |
| `Engine.ActionName` | src/cervus/engine.rs:164 | the name derived from counter value `n` is `action_` followed by the canonical decimal of `n`: digits only, no leading zero, spelling `n` |
| `Engine.DecimalInjective` | src/cervus/engine.rs:164 | different numbers never print the same (the digits read back as the number) |
| `Engine.ActionNameInjective` | src/cervus/engine.rs:163-164 | `action_<a>` equals `action_<b>` if and only if `a == b` |
| `Engine.IssuedNamesNext` | src/cervus/engine.rs:163-164 | each action extends the consumed names by exactly one, the name of the new counter value, keeping the earlier ones |
| `Engine.IssuedNamesDistinct` | src/cervus/engine.rs:162-164 | after `n` actions the consumed names `action_1 .. action_n` are pairwise distinct, and the digits after the `action_` prefix of the k-th spell k |
| `Engine.NewExecutionEngineAsWritten` | src/cervus/engine.rs:31-54 | the code as written: abort exactly when the module is broken; an engine only when creation returns 0, sets no error, and the verifier stored no message |
| `Engine.AsWrittenPanicsOnValidModule` | src/cervus/engine.rs:33-47 | a valid module for which the verifier stores a message and creation succeeds: the code as written panics, the corrected one returns the engine |
| `Engine.NewExecutionEngine` | src/cervus/engine.rs:31-54 | abort exactly when verification fails; an engine tied to the given module exactly when creation returns 0 and sets no error; a non-zero status panics with "Unable to create execution engine"; a set error panics with that error |
| `Engine.NewExecutionEngineMatchesAsWritten` | src/cervus/engine.rs:33-47 | the corrected and the written behaviour agree whenever the verifier leaves the pointer null, and the corrected one does not depend on the verifier's message |
| `Engine.BuildExample` | src/cervus/engine.rs:126-172 | `Add(p0, p1)` then `Return(p0)` through one builder leaves exactly `[action_1 = p0 + p1, ret p0]` in the block and a counter of 2; a second builder on another block of the same function still has counter 0 |
| `Glue.CheckHandle` | src/glue_old.rs:37-44 | handle 0 panics with "Got a null pointer"; any other handle is kept unchanged |
| `Glue.Response.constructor` | src/glue_old.rs:41-43 | the response stores the given handle unchanged |
| `Glue.Response.FromRaw` | src/glue_old.rs:37-44 | a response is created exactly for a non-zero handle and stores it unchanged; handle 0 panics |
| `Glue.Response.GetFile` | src/glue_old.rs:59-65 | `None` exactly when the runtime's string is empty, otherwise `Some` of that exact string |
| `Glue.Response.Drop` | src/glue_old.rs:120-128 | a non-zero handle is destroyed once and zeroed; a zero handle causes no destroy |
| `Glue.DropTwice` | src/glue_old.rs:120-128 | two drops in a row destroy the handle at most once |
| `Glue.ToAsciiUpper` | src/glue_old.rs:137 | only `a`..`z` change, each to the letter 32 code points lower |
| `Glue.ToAsciiUpperIdempotent` | src/glue_old.rs:137-143 | upper-casing twice equals once, and a character becomes `-` exactly when it is `-` |
| `Glue.TransformHeaderName` | src/glue_old.rs:131-148 | the output has the input's length; the first character and every character after a `-` are ASCII-upper-cased; every other character is copied; `-` stays at the same positions |
| `Glue.HeaderCaseKeepsDashes` | src/glue_old.rs:139-144 | normalising keeps the length and the positions of every `-` |
| `Glue.HeaderCaseIdempotent` | src/glue_old.rs:131-148 | normalising a normalised header name changes nothing |
| `Glue.HeaderCaseFixedPoint` | src/glue_old.rs:135-145 | a name is left unchanged exactly when none of its word-starting characters is a lower-case ASCII letter |

## Left out

- LLVM itself: what `LLVMVerifyModule` checks, instruction encoding, JIT compilation and calling compiled code. Verification and engine creation are inputs, so the rule "a block without a terminator fails verification" is not modelled.
- `ValueType` and its `get_ref()`: `src/cervus/value_type.rs` is not part of this model. A type is an opaque tag, and the lowering loop of `Function::new` copies the tags in order.
- C-string marshalling (`CString::new(..).unwrap()`, `CStr::from_ptr`, `to_str().unwrap()`) and `LLVMDisposeMessage`. The panic of `unwrap` on an interior NUL or on non-UTF-8 data is not modelled.
- Rust lifetimes: the borrow chain Module → Function → BasicBlock → Builder is plain object references.
- Engine.Builder.Append: models the debug build, where `+= 1` at `u32::MAX` panics. A release build wraps to 0 and would then reuse `action_0`, `action_1`, ….
- Engine.NewExecutionEngineAsWritten: the panic at src/cervus/engine.rs:45 reads the verifier's message through a pointer already disposed at line 35, which is undefined behaviour (and `to_str().unwrap()` may panic first); the model takes the text read to be the message as it was before disposal.
- Engine.Builder.Drop: requires that the builder was not dropped before, which Rust's ownership guarantees.
- `raw_pt.len() as u32` and `index as u32`: truncation of more than 2^32 parameters is not modelled.
- The name the backend gives a function, block or instruction whose name is already taken. Instructions carry the name that was requested: two builders on blocks of one function both request `action_1`, and LLVM renames the second, which the model does not.
- `get_body`, `get_headers`, `get_cookies`: iterator and raw-pointer plumbing over the foreign runtime.
- `get_status`: it depends on hyper's `StatusCode::try_from`, which is not part of this model.
- The `extern` declarations and `ice_glue_async_endpoint_handler`.
- Glue.Response.GetFile: a null pointer from the runtime is not modelled. The model assumes the runtime always returns a string.

## Findings

| source | as written | input that shows it | evidently intended | confidence | as-written member | corrected member |
|---|---|---|---|---|---|---|
| src/cervus/engine.rs:33-44 | `err_str` keeps the verifier's message pointer after `LLVMDisposeMessage`. Engine creation writes its out-pointer only on failure, so `!err_str.is_null()` holds after a successful creation and the code panics, reading freed memory | a valid module where `LLVMVerifyModule` stores a message (the LLVM C API stores a copy of its report, empty for a valid module, whenever it is given an out-pointer) and creation returns 0 | panic only on an error that engine creation reports; reset `err_str` to null after disposing of the verifier's message | medium: it depends on the LLVM C API storing a message on every verify call; not executed | `Engine.NewExecutionEngineAsWritten`, `Engine.AsWrittenPanicsOnValidModule` | `Engine.NewExecutionEngine` |

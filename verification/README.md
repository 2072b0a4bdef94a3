# Avalon-MM core compiler: slot scheduler, in Dafny

This project models the scheduling core of Cascade's Avalon-MM core compiler
(`AvmmCompiler<M,V,A,T>`) and the generic routing and port check of its base
class `CoreCompiler`.

The compiler owns a fixed table of 2^M slots. Each slot is one module id on
the Avalon-MM bus and has an owner engine id, a state (FREE, COMPILING,
WAITING, STOPPED or CURRENT) and the Verilog text of the module it holds.
A submission (`compile_logic`) passes a feature gate, claims the lowest FREE
slot and checks that its variable table has fewer than 2^V entries. It then becomes
the compilation lead: the previous lead drops to WAITING, and a waiting
submission of the same engine is superseded (STOPPED). The lead's thread
hands the device programmer the text of the top-level dispatcher over every
occupied slot. When that build succeeds, the whole batch of COMPILING and
WAITING slots becomes CURRENT at once. `stop_compile(id)` cancels an engine's
pending slots and, if it cancelled the lead, elects the lowest-index WAITING
slot as the new lead. A STOPPED slot is freed by its own thread, and a
CURRENT slot is freed when its logic object is torn down.

Files and modules:

- `slots.dfy` (`Slots`): the slot datatypes, the constructor's table,
  `get_free`, and the single-lead invariant, stated both pairwise and as a count.
- `scheduler.dfy` (`Scheduler`): every locked transition as a pure function
  over the table. These are the front half of `compile_logic` (gate, slot,
  overflow check, install), `stop_compile(id)`, `update`, `release` and the
  loop's STOPPED arm. Each comes with its frame and its single-lead lemma.
- `system.dfy` (`System`): the whole compiler, meaning the table plus the
  threads inside the state loop plus the live logic objects. Interleaving is
  the free choice of the next event. The device `compile(text, lock)`
  releases the lock, so it is split into entering the build and returning
  from it, with an arbitrary boolean result. An invariant is proved for every
  reachable state: at most one lead, and both of the source's assertions
  (the loop's `default` arm and `release`'s CURRENT check) can never fail.
- `scenarios.dfy` (`Scenarios`): worked schedules on a two-slot table.
- `bus_adapter.dfy` (`BusAdapter`): `get_text`, as the structure of the
  emitted `program_logic` module. `Eval` gives that structure its
  combinational meaning.
- `registration.dfy` (`Registration`): the order in which inputs, state and
  outputs are registered with the logic builder.
- `core_compiler.dfy` (`CoreCompiler`): `check_io`, the `__std` tag dispatch
  of `compile`, and the base-class handlers.

Notes on the code, which the model follows as written:

- Install stops the same engine's previous lead as well as its waiting slots.
  The downgrade loop turns a COMPILING slot into WAITING before it tests for
  "owned by this id and WAITING", so both end up STOPPED.
- A variable-table overflow never touches the claimed slot. The slot was
  only chosen and never marked, so it stays FREE.
- Variables are registered in ascending numeric variable-id order (the
  `std::map<VId, …>` key), with duplicate ids collapsed.
- In the generated dispatcher, each instance's `__read` port is driven by
  `(__mid == i) & s0_write` and its `__write` port by `(__mid == i) & s0_read`.
  The enables are crossed exactly as emitted, and the model keeps them so.
- A build promotes the slots that are active when it returns, not the ones it
  was given. `compile(get_text(), lock_)` releases the lock while the device
  builds, and on success `update()` makes every slot that is COMPILING or
  WAITING at that moment CURRENT. A submission installed while the build ran
  is therefore promoted although the dispatcher the build received has no
  instance for it (`Scenarios.BuildPromotesUnseen`).
- At most one slot is COMPILING at a time, but that does not bound the number
  of builds in flight. While one thread is inside `compile` with the lock
  released, another submission can install a new lead whose thread enters
  `compile` too; stopping the earlier build is left to the device's
  `compile` (`Scenarios.TwoBuildsInFlight`).

## Model

| member | source | states |
|---|---|---|
| Slots.Initial | src/cascade/target/core/avmm/avmm_compiler.h:114-118 | the constructor's table has 2^M slots, every one FREE with id 0 and empty text |
| Slots.GetFree | src/cascade/target/core/avmm/avmm_compiler.h:270-278 | the result is -1 exactly when no slot is FREE; otherwise it is a FREE slot and every lower slot is occupied |
| Slots.FirstFrom | src/cascade/target/core/avmm/avmm_compiler.h:272-277 | the ascending scan returns the first index at or after the start with the wanted state, or -1 exactly when there is none |
| Slots.SingleLeadIsCount | src/cascade/target/core/avmm/avmm_compiler.h:239-241 | "no two distinct slots are COMPILING" is the same as "the number of COMPILING slots is 0 or 1" |
| Slots.InitialSingleLead | src/cascade/target/core/avmm/avmm_compiler.h:114-118 | a freshly built table has no COMPILING slot |
| Scheduler.Downgrade | src/cascade/target/core/avmm/avmm_compiler.h:231-238 | one pass of the downgrade loop keeps id and text; a COMPILING or WAITING slot of the submitting id becomes STOPPED, one of another id becomes WAITING, and any other slot is unchanged |
| Scheduler.Install | src/cascade/target/core/avmm/avmm_compiler.h:229-242 | the claimed slot holds the new id, COMPILING and its text; a COMPILING or WAITING slot of the same id becomes STOPPED; one of another id becomes WAITING; FREE, STOPPED and CURRENT slots are unchanged; afterwards at most one slot is COMPILING |
| Scheduler.Submit | src/cascade/target/core/avmm/avmm_compiler.h:163-242 | each refusal happens exactly under its own condition, in the order mixed triggers, implied latches, multiple clocks, no FREE slot, variable table of size >= 2^V; every refusal leaves the table unchanged; a success claims the lowest FREE slot and installs it |
| Scheduler.PromoteFirstWaiting | src/cascade/target/core/avmm/avmm_compiler.h:147-154 | ids and texts are kept, and the only slot whose state changes is the lowest-index WAITING slot, which becomes COMPILING |
| Scheduler.StopCompile | src/cascade/target/core/avmm/avmm_compiler.h:120-160 | when the id owns no COMPILING or WAITING slot, the table is unchanged and no device stop is requested; otherwise a device stop is requested |
| Scheduler.StopCompileSpec | src/cascade/target/core/avmm/avmm_compiler.h:124-154 | every COMPILING or WAITING slot of the id becomes STOPPED; if the id held the lead, the lowest-index slot WAITING for another id becomes COMPILING; every other slot is unchanged |
| Scheduler.StopLeadReelects | src/cascade/target/core/avmm/avmm_compiler.h:146-154 | after cancelling the lead, the COMPILING slots are exactly the first WAITING slot of another id, so there is either no lead or that one |
| Scheduler.StopCompileSingleLead | src/cascade/target/core/avmm/avmm_compiler.h:120-154 | `stop_compile` preserves "at most one COMPILING slot" |
| Scheduler.Update | src/cascade/target/core/avmm/avmm_compiler.h:291-299 | every COMPILING or WAITING slot becomes CURRENT with id and text kept; every other slot is unchanged |
| Scheduler.UpdateSettles | src/cascade/target/core/avmm/avmm_compiler.h:291-299 | after promotion no slot is COMPILING or WAITING, so promotion is idempotent and keeps the single-lead invariant |
| Scheduler.Release | src/cascade/target/core/avmm/avmm_compiler.h:280-289 | on a CURRENT slot, only that slot changes, and only its state, which becomes FREE |
| Scheduler.FreeStopped | src/cascade/target/core/avmm/avmm_compiler.h:255-258 | the loop's STOPPED arm frees only its own slot and changes nothing else |
| Scheduler.TransitionsKeepSingleLead | src/cascade/target/core/avmm/avmm_compiler.h:120-299 | submit, `stop_compile`, `update`, `release` and the loop's STOPPED-to-FREE step each preserve "at most one COMPILING slot" |
| System.Step | src/cascade/target/core/avmm/avmm_compiler.h:245-267 | a pass of the state loop: the thread leaves exactly when its slot is STOPPED or CURRENT; only CURRENT hands over a live object; only STOPPED changes the table, freeing the thread's own slot; COMPILING enters the build with the dispatcher for the current table; WAITING (the wait) and FREE (the asserting arm) change nothing |
| System.Init | src/cascade/target/core/avmm/avmm_compiler.h:114-118 | the compiler starts with 2^M slots, no thread in the state loop and no live logic object |
| System.InvGuardsAssertions | src/cascade/target/core/avmm/avmm_compiler.h:245-289 | under the invariant, a thread in the state loop never finds its slot FREE (the `assert(false)` arm), and a live logic object's slot is CURRENT when it is released (the `release` assertion) |
| System.SubmitInv | src/cascade/target/core/avmm/avmm_compiler.h:163-245 | a submission preserves the invariant; the claimed slot was held by no thread and no live object |
| System.CancelInv | src/cascade/target/core/avmm/avmm_compiler.h:120-160 | `stop_compile` preserves the invariant: it never frees or occupies a slot and never touches a CURRENT one |
| System.LoopInv | src/cascade/target/core/avmm/avmm_compiler.h:245-267 | one pass of the state loop preserves the invariant: a STOPPED slot is freed and its thread leaves, a CURRENT slot passes from its thread to a live object |
| System.BuildDoneInv | src/cascade/target/core/avmm/avmm_compiler.h:247-251 | returning from the device build, whether it succeeded or failed, preserves the invariant |
| System.TeardownInv | src/cascade/target/core/avmm/avmm_compiler.h:280-289 | releasing a live logic object preserves the invariant |
| System.BuildCoversBatch | src/cascade/target/core/avmm/avmm_compiler.h:245-251 | the thread that enters the device build hands it a dispatcher that instantiates every slot COMPILING or WAITING at that moment with that slot's text: the build covers the batch as it stood when the build was entered |
| System.StepInv | src/cascade/target/core/avmm/avmm_compiler.h:120-299 | every enabled event preserves the invariant |
| System.RunInv | src/cascade/target/core/avmm/avmm_compiler.h:120-299 | every schedule of events preserves the invariant |
| System.ReachableSingleLead | src/cascade/target/core/avmm/avmm_compiler.h:229-241 | in every state reachable from construction with the device's module-id width M, 0 or 1 slots are COMPILING |
| Scenarios.BatchSubmits | src/cascade/target/core/avmm/avmm_compiler.h:229-242 | a second engine's submission takes the next slot as lead and leaves the first engine's slot WAITING |
| Scenarios.BatchBuilds | src/cascade/target/core/avmm/avmm_compiler.h:245-251 | the lead's successful build makes both the lead and the waiting slot CURRENT |
| Scenarios.BatchLeavesLoop | src/cascade/target/core/avmm/avmm_compiler.h:259-261 | once both slots are CURRENT, both threads leave the state loop with live logic objects |
| Scenarios.LoneBuildEntered | src/cascade/target/core/avmm/avmm_compiler.h:240-248 | a lone submission becomes the lead and its thread enters the build with the dispatcher over the table as it stands |
| Scenarios.BuildPromotesUnseen | src/cascade/target/core/avmm/avmm_compiler.h:245-251 | while a build runs, a second engine's submission becomes the lead; when the first build returns success both slots go CURRENT, although the dispatcher that build received has no instance for the second slot |
| Scenarios.TwoBuildsInFlight | src/cascade/target/core/avmm/avmm_compiler.h:245-251 | after a second lead is installed during a build, its thread enters the build too: two threads are inside the device build while exactly one slot is COMPILING |
| Scenarios.CancelOnlyLead | src/cascade/target/core/avmm/avmm_compiler.h:120-160 | cancelling the only submission leaves no lead, and its thread frees the slot |
| Scenarios.Supersede | src/cascade/target/core/avmm/avmm_compiler.h:229-242 | a second submission by the same engine stops its first one and takes the next slot as lead |
| Scenarios.OverflowLeavesTable | src/cascade/target/core/avmm/avmm_compiler.h:220-227 | a variable table of 2^V entries is refused and the compiler state is unchanged |
| BusAdapter.OccupiedFrom | src/cascade/target/core/avmm/avmm_compiler.h:307-312 | the collected slot indices are strictly ascending, all occupied, and include every occupied slot |
| BusAdapter.ArmsFor | src/cascade/target/core/avmm/avmm_compiler.h:366-369 | one case arm per occupied slot, in order, selecting that module's output and wait, and the default arm last |
| BusAdapter.GetText | src/cascade/target/core/avmm/avmm_compiler.h:301-383 | there are as many module declarations as instances, and one more case arm than instances |
| BusAdapter.GetTextInstances | src/cascade/target/core/avmm/avmm_compiler.h:306-357 | declarations and instances are exactly the non-FREE slots, in strictly ascending index order, each declaration being that slot's stored text |
| BusAdapter.GetTextLayout | src/cascade/target/core/avmm/avmm_compiler.h:338-378 | the arms follow the instances and end with the default arm (rd = 0, wr = 0); `__mid` is address bits [V+M-1:V] and `__vid` bits [V-1:0]; the wait request is `wr` under `s0_read` or `s0_write`, else 1 |
| BusAdapter.EnablesAreCrossed | src/cascade/target/core/avmm/avmm_compiler.h:348-350 | each instance's `__read` is gated by `s0_write` and its `__write` by `s0_read` |
| BusAdapter.GetTextDependsOnOccupied | src/cascade/target/core/avmm/avmm_compiler.h:306-312 | two tables with the same occupied slots and the same texts there give the same dispatcher, whatever the ids and non-FREE states |
| BusAdapter.FirstWith | src/cascade/target/core/avmm/avmm_compiler.h:364-371 | the found arm carries the wanted label, and none is found exactly when no arm carries it |
| BusAdapter.ArmsForLabels | src/cascade/target/core/avmm/avmm_compiler.h:364-371 | in the emitted arms, the arm labelled with a module id is that slot's own arm and exists exactly when the slot is occupied; the default arm is always present |
| BusAdapter.SelectArms | src/cascade/target/core/avmm/avmm_compiler.h:364-371 | the case statement picks the arm of the addressed slot when it is occupied, else the default arm |
| BusAdapter.EvalArms | src/cascade/target/core/avmm/avmm_compiler.h:359-377 | a dispatcher with those arms reads the addressed module's output and wait when it is occupied, else reads 0 and does not wait; with no strobe the wait request is 1 |
| BusAdapter.MidField | src/cascade/target/core/avmm/avmm_compiler.h:339 | for an address that fits the `s0_address` port and a slice inside it, the module id is (address / 2^V) mod 2^M |
| BusAdapter.EvalSpec | src/cascade/target/core/avmm/avmm_compiler.h:338-377 | on the bus, an occupied module id yields that module's output and wait signal, any other module id reads 0 and does not wait, and with neither strobe set the wait request is 1 |
| BusAdapter.EnableSpec | src/cascade/target/core/avmm/avmm_compiler.h:339-350 | an instance's `__read` is asserted exactly when the address selects it and `s0_write` is set, and its `__write` exactly when the address selects it and `s0_read` is set |
| Registration.Insert | src/cascade/target/core/avmm/avmm_compiler.h:196-198 | inserting a key into an ascending key list keeps it strictly ascending and adds exactly that key |
| Registration.MapKeys | src/cascade/target/core/avmm/avmm_compiler.h:195-201 | a `std::map` filled from a list iterates its distinct keys in strictly ascending order |
| Registration.AscendingUnique | src/cascade/target/core/avmm/avmm_compiler.h:190-193 | two strictly ascending sequences with the same elements are equal |
| Registration.Registrations | src/cascade/target/core/avmm/avmm_compiler.h:195-215 | no registration call is repeated, and every registered id comes from its own role's collection |
| Registration.RegistrationsOrder | src/cascade/target/core/avmm/avmm_compiler.h:195-215 | all inputs are registered before all state, all state before all outputs, and ids ascend within each role |
| Registration.RegistrationsMembers | src/cascade/target/core/avmm/avmm_compiler.h:195-215 | each role registers exactly the distinct ids of its collection |
| Registration.RegistrationsDeterministic | src/cascade/target/core/avmm/avmm_compiler.h:190-216 | the registration sequence depends only on which ids occur in each role, not on their order or repetition |
| CoreCompiler.CheckIo | src/cascade/target/core_compiler.cc:152-176 | the result is true exactly when each side fits its limit: with limit 0, no port; otherwise at most one port, no wider than the limit |
| CoreCompiler.CheckIoCases | src/cascade/target/core_compiler.cc:153-175 | each rejection case (any input under limit 0, more than one input, one input wider than the limit, and the same for outputs) gives false, and no ports under positive limits gives true |
| CoreCompiler.Dispatch | src/cascade/target/core_compiler.cc:61-76 | the tag goes to `compile_custom` exactly when it is none of clock, gpio, led, logic, pad, reset; otherwise it goes to the handler serving that tag |
| CoreCompiler.DispatchRoundTrip | src/cascade/target/core_compiler.cc:61-76 | every dedicated handler is reached by its own tag |
| CoreCompiler.BaseHandler | src/cascade/target/core_compiler.cc:83-134 | every base-class handler reports an error and returns null |
| CoreCompiler.BaseCompile | src/cascade/target/core_compiler.cc:61-134 | a compiler that overrides no handler refuses every module with an error, and routes unknown tags to the custom handler |

## Left out

- The mutex and condition variable. Each locked region is one event of
  `System.Step`; `cv_.wait` is a loop pass that changes nothing; notifications
  are implicit, since any event may follow any other.
- The first loop pass right after install runs under the same lock hold in
  the source. The model lets other events come in between, which only adds
  schedules; the invariant covers them all.
- The device programmer. `compile(text, lock)` is a boolean parameter of
  `BuildDone`. `stop_compile()` is the `stopRequested` flag of `StopOutcome`
  and is not tracked by `System`.
- `build`, `AvmmLogic` (`set_input`, `set_state`, `set_output`,
  `index_tasks`, `get_table`, `set_callback`) and `Rewrite<M,V,A,T>().run`.
  Per-slot text and the variable-table size are inputs of a submission.
- `ModuleInfo` and `Evaluate`. The feature flags, and the port counts and
  widths used by `check_io`, are plain parameters.
- The exact characters of `get_text`: indentation, newlines and number
  printing. The model keeps the structure, and `numeric_limits<A/T>::digits`
  are parameters.
- The `__delay` sleep and `schedule_state_safe_interrupt` in `compile`;
  `to_vid` parsing; all diagnostic message text.
- The absent `__std` attribute: `compile` dereferences it without a check,
  and the model takes the tag as a given string.
- Slots.Initial: `T(1) << M` is computed in `T`, or in `int` after integral
  promotion when `T` is narrower than `int`, and wraps or is undefined for M
  at least the width of that type; the model uses 2^M unbounded.
- Scheduler.Submit: the bound `max_vars = T(1) << V` has the same fixed-width
  shift; for V at least the width of `T` (or of `int`, after promotion) the
  source's `size() >= max_vars` test can differ from the unbounded `>= 2^V` of
  the model.
- Slots.GetFree: the `size_t` to `int` conversion of the returned index is
  not modelled, so tables beyond `INT_MAX` slots are not covered.
- Scheduler.Release: the source's `assert(state == CURRENT)` is a
  precondition here; `System.InvGuardsAssertions` shows it always holds for a
  live logic object.
- BusAdapter.EvalSpec: the meaning of the emitted Verilog is stated only for
  M and V at least 1 and with V+M no larger than 2^64. With M or V zero the
  emitted ranges wrap through `size_t` (which `GetText` models), but their
  Verilog meaning is not modelled. The same goes for BusAdapter.MidField and
  BusAdapter.EnableSpec, and all three also need V+M to be at most the width
  of the `s0_address` port, and the address to fit that port. The source never
  checks V+M against `numeric_limits<A>::digits`, and beyond that width the
  part-select `[V+M-1:V]` reads bits outside the port.
- That a CURRENT slot's module was part of the build that promoted it. The
  source does not ensure this (see the notes above), so no contract claims it;
  `System.BuildCoversBatch` speaks only of the batch as it stood when the
  build was entered.
- Liveness: that a WAITING thread is eventually woken, or that a build
  eventually returns, is not modelled; only safety is proved.

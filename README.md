# Object emulation in C, modelled in Dafny

This project models the object-emulation module of a C teaching repository,
`src/c_style_oop.c`, and the small helpers of `src/function.c`.

- **Bounded list** (`list_t`, module `BoundedList`). A count and a heap
  buffer of `MAX_SIZE` = 10 ints, modelled as a class with an `array<int>`
  of length 10 and a `size` field. The invariant is `size <= 10`. The
  abstract value `Contents()` is the first `size` cells.
- **`reverse`** (module `Reverse`). It clears the destination and appends
  the source's values from last to first. `ReverseAsWritten` keeps the C
  counter's `size_t` type: the loop guard `i >= 0` is always true, so the
  loop ends only when the wrapped counter fails the index check.
  `ReverseChecked` is the same loop with a signed counter.
- **Engine** (module `Engines`). A two-state device, OFF at 15 or ON at 75.
  The two transitions are idempotent.
- **Car** (`car1_t`, module `Composition`). It creates its own engine and
  only delegates to it.
- **Player** (`player_t`, module `Aggregation`). It holds an optional,
  non-owning reference to a gun.
- **function.c** (module `Functions`):
  - `sum`, under the condition that the result fits in `int`.
  - `less_than`, and `less_than_modular`, which uses C's truncating `%`.
  - `func`, which shows that C passes pointers by value.

C's integer widths are written out in module `CTypes`: a 32-bit `int`, a
64-bit `size_t` that wraps modulo 2^64, and the implementation-defined
`size_t`-to-`int` conversion. The usual targets reduce modulo 2^32, so
SIZE_MAX becomes -1. Module `Decimal` gives the text that `printf("%d ")`
produces, and a parser for it, which shows that the printed list determines
the list.

## Model

| member | source | states |
|---|---|---|
| `CTypes.Decrement` | src/c_style_oop.c:149 | `i--` on a `size_t`: one less for a positive counter, SIZE_MAX after 0, always congruent modulo 2^64 |
| `CTypes.IntOfSize` | src/c_style_oop.c:151 | passing the `size_t` counter to `list_get`'s `int` parameter: the result is congruent to it modulo 2^32, and equal to it when it fits |
| `CTypes.SizeMaxIsMinusOne` | src/c_style_oop.c:149-151 | the wrapped counter SIZE_MAX arrives in `list_get` as index -1 |
| `Decimal.DecimalString` | src/c_style_oop.c:141 | `%d` text of a value: non-empty and free of spaces, so the separator that follows it is unambiguous |
| `Decimal.DigitsCanonical` | src/c_style_oop.c:141 | the digits `%d` prints for a positive value never start with '0' |
| `Decimal.DecimalRoundTrip` | src/c_style_oop.c:141 | reading the `%d` text back gives the value again, negative values included |
| `Decimal.ItemsRoundTrip` | src/c_style_oop.c:140-142 | the space-terminated values written by the print loop read back as the same sequence |
| `Decimal.RenderingRoundTrip` | src/c_style_oop.c:138-144 | the full text `[`, values, `]\n` reads back as exactly the printed values |
| `Decimal.RenderingInjective` | src/c_style_oop.c:138-144 | two lists print the same text only if they hold the same values |
| `BoundedList.List.Init` | src/c_style_oop.c:103-111 | a new list owns a fresh 10-cell buffer and holds no values |
| `BoundedList.List.IsFull` | src/c_style_oop.c:95-97 | true exactly when the list holds `MAX_SIZE` values |
| `BoundedList.List.CheckIndexAsWritten` | src/c_style_oop.c:99-101 | the check as written accepts exactly the indices 0 to size, both included |
| `BoundedList.List.CheckIndex` | src/c_style_oop.c:99-101 | the corrected check accepts exactly the indices of held values, which all lie inside the buffer |
| `BoundedList.List.Size` | src/c_style_oop.c:135-137 | the number of held values, at most `MAX_SIZE`; nothing changes |
| `BoundedList.List.Add` | src/c_style_oop.c:117-124 | with room: returns 0, appends the item at cell `size`, all other cells unchanged; when full: returns -1 and nothing changes; the invariant `size <= 10` is kept |
| `BoundedList.List.GetAsWritten` | src/c_style_oop.c:125-131 | returns 0 exactly for 0 <= index <= size and yields the held value; at index == size it yields a stale cell outside the held values; otherwise returns -1 and leaves `*result` as it was |
| `BoundedList.List.Get` | src/c_style_oop.c:125-131 | with the corrected check: returns 0 and the held value exactly for 0 <= index < size, else -1 with `*result` untouched |
| `BoundedList.List.Clear` | src/c_style_oop.c:132-134 | afterwards the list holds no values, and the buffer and every cell in it are unchanged |
| `BoundedList.List.Render` | src/c_style_oop.c:138-144 | the loop writes `[`, each held value in order as `%d` plus one space, then `]\n`; an empty list gives `[]\n` |
| `BoundedList.AsWrittenCheckAdmitsSize` | src/c_style_oop.c:99-101 | the as-written check accepts exactly one index that the corrected one refuses: `size`; on a full list that index is 10, one past the buffer |
| `BoundedList.FillToCapacity` | src/c_style_oop.c:117-124 | ten adds to a new list all return 0 and keep insertion order; the eleventh returns -1 and the contents stay the same |
| `Reverse.ReversedAt` | src/c_style_oop.c:147-157 | the reversal has the source's length, and position k holds the source's value at size-1-k |
| `Reverse.ReversedInvolutive` | src/c_style_oop.c:147-157 | reversing twice gives back the original order |
| `Reverse.ReverseAsWritten` | src/c_style_oop.c:147-157 | `dest` is cleared, then filled with the source's values reversed, and its cells past the new size are unchanged; `source` is unchanged; every ignored `list_add` result is 0; `list_get` is called once per value plus once at the wrapped index; the result is always -1; `reverse(l, l)` leaves `l` empty after one failing read |
| `Reverse.ReverseChecked` | src/c_style_oop.c:147-157 | the same final state with a signed counter; every `list_add` result is 0; `list_get` is called exactly once per value, so an empty source reads nothing; the result is 0 |
| `Reverse.ListDemo` | src/c_style_oop.c:348-360 | in `main`, `[4 6 1 5]` reversed into a list that held 9 prints `[4 6 1 5 ]\n` and `[5 1 6 4 ]\n`; `reverse` returned -1 |
| `Reverse.DemoValues` | src/c_style_oop.c:353-360 | the reversal of 4 6 1 5 is 5 1 6 4, and the texts both lists print |
| `Engines.AfterTurnOn` | src/c_style_oop.c:183-189 | turning on always gives ON; an engine already ON is unchanged; a consistent engine ends ON at 75 |
| `Engines.AfterTurnOff` | src/c_style_oop.c:190-196 | turning off always gives OFF; an engine already OFF is unchanged; a consistent engine ends OFF at 15 |
| `Engines.TransitionsIdempotent` | src/c_style_oop.c:183-196 | a second `engine_turn_on` or `engine_turn_off` changes nothing |
| `Engines.TransitionsKeepConsistent` | src/c_style_oop.c:174-196 | the construction state is consistent, and both transitions keep "ON at 75, OFF at 15" |
| `Engines.StateFromTemperature` | src/c_style_oop.c:160-199 | in a consistent engine, ON holds exactly when the temperature is 75, and OFF exactly when it is 15 |
| `Engines.Engine.constructor` | src/c_style_oop.c:170-177 | a new engine is OFF at 15 |
| `Engines.Engine.TurnOn` | src/c_style_oop.c:183-189 | the fields become `AfterTurnOn` of the old fields; the invariant is kept |
| `Engines.Engine.TurnOff` | src/c_style_oop.c:190-196 | the fields become `AfterTurnOff` of the old fields; the invariant is kept |
| `Engines.Engine.GetTemperature` | src/c_style_oop.c:197-199 | a read that changes nothing; on a consistent engine, 75 means ON and 15 means OFF |
| `Engines.EngineScenario` | src/c_style_oop.c:174-199 | construct, on, on, off: temperatures 15, 75, 75, 15 and states OFF, ON, ON, OFF |
| `Composition.Car.constructor` | src/c_style_oop.c:211-219 | the car gets a freshly allocated engine, OFF at 15 |
| `Composition.Car.Start` | src/c_style_oop.c:226-228 | same engine; its fields change exactly as `engine_turn_on` changes them; nothing else may change |
| `Composition.Car.Stop` | src/c_style_oop.c:229-231 | same engine; its fields change exactly as `engine_turn_off` changes them; nothing else may change |
| `Composition.Car.GetEngineTemperature` | src/c_style_oop.c:244-246 | the owned engine's temperature, read through its own operation; 75 exactly when it is ON |
| `Composition.CarScenario` | src/c_style_oop.c:214-246 | a new car started twice, then stopped, reads 15, 75, 75, 15 |
| `Aggregation.Player.constructor` | src/c_style_oop.c:261-272 | the player keeps a copy of the name and holds no gun |
| `Aggregation.Player.PickupGun` | src/c_style_oop.c:278-281 | the player now holds the given reference, whatever it held before; the name is unchanged |
| `Aggregation.Player.Shoot` | src/c_style_oop.c:282-291 | with a gun, that gun's trigger is pulled; without one, the message is printed and the process exits with status 1 |
| `Aggregation.Player.DropGun` | src/c_style_oop.c:292-298 | the reference is cleared and only the player changes, so the gun is neither freed nor touched |
| `Aggregation.AggregationScenario` | src/c_style_oop.c:265-298 | after a pickup, shooting triggers that very gun; after a drop, shooting prints the message and exits with status 1 |
| `Functions.Sum` | src/function.c:52-54 | the result fits in `int` and subtracting either operand gives back the other; the sum must not overflow |
| `Functions.CRem` | src/function.c:72-74 | C's `%`: quotient times divisor plus remainder gives the dividend; the remainder has the dividend's sign and is smaller than the divisor in magnitude |
| `Functions.CRemVersusEuclidean` | src/function.c:72-74 | C's remainder equals the non-negative remainder for non-negative dividends and multiples, and is that remainder minus the divisor otherwise |
| `Functions.LessThan` | src/function.c:69-71 | returns only 0 or 1, and 1 exactly when a < b |
| `Functions.LessThanModular` | src/function.c:72-74 | returns only 0 or 1, and 1 exactly when C's `a % 5` is below `b % 5` |
| `Functions.ComparatorsAreStrict` | src/function.c:69-74 | both comparators are irreflexive (`f(a, a) == 0`), asymmetric and transitive |
| `Functions.LessThanModularNegative` | src/function.c:72-74 | `-1 % 5` is -1, so -1 comes before 0 and before 4, and 4 does not come before -1 |
| `Functions.Func` | src/function.c:32-36 | 5 is stored in the pointed-to `int`; rebinding the local pointer changes nothing for the caller |
| `Functions.FuncDemo` | src/function.c:76-89 | as documented at src/function.c:24-29: the value is 3 before and 5 after, the pointer is the same, and `sum(5, 4)` is 9 |

## Left out

- `car_t`, `car_construct`, `car_destruct`, `car_accelerate`, `car_brake`, `car_refuel` and the driving loop of `main`: these use floating-point steps of 0.05 and 0.07.
- `list_destroy`, `engine_dtor`, `car_dtor`, `player_dtor`: `free` has no counterpart in Dafny. The `*_malloc`/`*_new` allocators are merged into the constructors. Fields are indeterminate until the constructor runs.
- `gun_trigger` and `struct gun_t`: they are not defined anywhere; the forward declaration is misspelled `struct gut_t`. Shooting returns which gun's trigger would be pulled; the gun itself is an empty class.
- The `printf` and `exit(1)` of `player_shoot`: an outcome value carries the message and the exit status. Process termination is not modelled.
- `person_t` and `student_t`: type declarations only, with no behaviour.
- `printf` in `list_print`: the method returns the text instead of writing it to standard output.
- The list's elements are unbounded integers, not 32-bit `int`s. No operation computes with them, so the range plays no part.
- BoundedList.List.GetAsWritten: requires that the caller does not ask for index 10 on a full list. That read lies past the buffer and has no meaning in C. `AsWrittenCheckAdmitsSize` shows that the as-written check lets it through.
- Aliasing of list buffers: `reverse` requires two different lists not to share a buffer, because each list allocates its own.
- `player_shoot` without a gun: modelled as the code's `Exited(1, message)`, not as a recoverable error.
- `reverse` on an empty source: as written it still makes one failing read at the wrapped index; only `ReverseChecked` reads nothing.
- `engine_t.temperature` and the results of `engine_get_temperature` and `car_get_engine_temperature` are `double` in C and `int` here. This is exact, because the field is only ever assigned 15 or 75.
- The option-parsing, error-reporting, process-identity, filesystem, heap, stack, buffer-overflow, struct-layout, pointer-size and macro programs: these are wrappers over platform APIs, or deliberate undefined behaviour.

## Findings

| source | as written | input that shows it | evidently intended | confidence | as-written member | corrected member |
|---|---|---|---|---|---|---|
| src/c_style_oop.c:100 | `index >= 0 && index <= list->size` | a full list (size 10) and `list_get(list, 10, &r)`: the check passes and `items[10]` is read, one past the 10-int buffer; on a shorter list, index `size` yields a stale cell | `index < list->size` | not executed | `BoundedList.AsWrittenCheckAdmitsSize` | `BoundedList.List.Get` |
| src/c_style_oop.c:149 | `size_t i = list_size(source) - 1; i >= 0; i--` | source `[4 6 1 5]`: `dest` becomes `[5 1 6 4]`, then `i` wraps to SIZE_MAX, arrives as index -1, `list_get` fails and `reverse` returns -1; `return 0` is unreachable; an empty source starts at SIZE_MAX | a signed counter that stops below 0, and a result of 0 after the copy | not executed | `Reverse.ReverseAsWritten` | `Reverse.ReverseChecked` |

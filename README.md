# Key-Presser in Dafny

A model of `KeyPresser` in `key_presser.py`. This Windows helper turns key names
such as `"space"` or `"LEFT_MOUSE"` into DirectInput scancodes and sends key-down and
key-up inputs through `SendInput`. It remembers which names it has pressed, so
`release_all_keys` can let them all go.

The project has four modules:

- `Wrappers` (`wrappers.dfy`): `Option`, `Result`, and `Outcome`. `Outcome` is
  what a Python method that returns `None` or raises produces.
- `Text` (`text.dfy`):
  - `str.upper` and `str.lower`, restricted to ASCII.
  - `', '.join`, and a split on `", "` proved to be its inverse for non-empty lists of
    names that contain no comma.
- `KeyTable` (`key_table.dfy`):
  - The `KEY_CODES` dictionary, as a list of `(name, scancode)` pairs in the
    order of the dictionary literal. The order matters because the error message
    lists the names in iteration order.
  - The flag constants `KEY_EVENT_KEY_UP`, `KEY_EVENT_SCANCODE` and
    `INPUT_KEYBOARD`.
  - Facts about the table. It has 101 distinct names, all spelled with upper-case
    letters, digits and `_`. The 91 keyboard codes fit in one byte. The ten mouse
    entries have the codes 0x100 to 0x109, in order. The table is not one-to-one:
    `DELETE` and `NUMPAD_PERIOD` both give 0x53.
  - The table is split into twelve runs of consecutive entries (letter rows,
    arrows, number row, and so on) to keep proof obligations small. These facts
    are proved run by run and then lifted to the whole table.
- `KeyPresser` (`key_presser.dfy`):
  - `GetHexKeyCode` (`get_hex_key_code`): upper-case the name, look it up, or fail
    with the `ValueError` message.
  - The `INPUT` records handed to `SendInput`.
  - A value-level description of the controller's observable state, `Observed`.
    It holds the set of names believed held and the list of inputs the operating
    system has received.
  - The functions `Hold`, `Release`, `HoldAndRelease` and `ReleaseEach`, which say
    what each operation does to that state.
  - The class `KeyPresser`. Its `pressedKeys` field is updated in place, and a
    ghost field `sent` stands for the operating system's record. Every method is
    proved to take the state exactly where the matching function says.

The model follows the code. Three points are worth noting:

- **Names are stored as given.** `hold_key` and `release_key` put the caller's own
  spelling into the set or take it out. Only the lookup upper-cases. So holding
  `"space"` and then releasing `"SPACE"` sends the key-up for 0x39, but `"space"`
  stays in the set (`SpaceThenUpperSpace`).
- **A negative duration leaves the key held.** `hold_and_release_key` calls
  `time.sleep(seconds)`, which raises `ValueError` when the duration is negative
  (`OverflowError` when it is below the clock's range). The key has already gone
  down and is never released (`NegativeDurationLeavesKeyHeld`).
- **Release order is open.** `release_all_keys` walks a snapshot of the set in
  Python's set order. The model leaves that order open. It proves that for every
  order the set ends empty and exactly one key-up input is sent per held name, in
  that order.

## Model

| member | source | states |
|---|---|---|
| Text.ToUpper | key_presser.py:146 | upper-casing keeps the length, turns each ASCII letter a..z into its own capital, keeps every other character, and leaves no lower-case ASCII letter |
| Text.ToUpperIdempotent | key_presser.py:146 | upper-casing an already upper-cased name changes nothing |
| Text.ToUpperOfLower | key_presser.py:146 | upper-casing a lower-cased name gives the same as upper-casing the original |
| Text.Join | key_presser.py:148 | the ', '-joined listing starts with the first name and is as long as all names plus one two-character separator between each two |
| Text.SplitJoin | key_presser.py:148 | the ", "-joined non-empty list of comma-free names splits back into exactly that list |
| KeyTable.KeyNames | key_presser.py:148 | KEY_CODES.keys() has one name per entry, in table order, 101 in all |
| KeyTable.TableNamesDistinct | key_presser.py:13-115 | no name occurs twice in KEY_CODES |
| KeyTable.TableNamesWellFormed | key_presser.py:13-115 | every name is made of upper-case ASCII letters, digits and underscores (so contains no comma and is its own upper-case form) |
| KeyTable.KeyboardCodesBelow0x100 | key_presser.py:14-104 | the table has 101 entries and the 91 keyboard entries have scancodes in 1..0xFF |
| KeyTable.MouseCodesConsecutive | key_presser.py:105-114 | the ten mouse entries that close the table have the pseudo-scancodes 0x100..0x109 in order |
| KeyTable.NamedEntries | key_presser.py:70-102 | SPACE is 0x39, DELETE 0x53, F12 0x58 and NUMPAD_PERIOD 0x53, at their positions in the table |
| KeyPresser.UnknownKeyMessage | key_presser.py:149-153 | the message starts with the name followed by ' is not a valid key name. ' |
| KeyPresser.Find | key_presser.py:147-154 | a position found holds the key and lies within the table |
| KeyPresser.FindSpec | key_presser.py:147-154 | the search reports the first position holding the key, and reports none exactly when no position holds it |
| KeyPresser.GetHexKeyCode | key_presser.py:133-155 | a failed lookup raises ValueError with the message for the upper-cased name |
| KeyPresser.GetHexKeyCodeSpec | key_presser.py:146-155 | the lookup succeeds if and only if the upper-cased name is in the table, and then gives that entry's scancode |
| KeyPresser.GetHexKeyCodeIgnoresCase | key_presser.py:146 | the lookup of a name equals the lookup of its upper-case and of its lower-case spelling |
| KeyPresser.GetHexKeyCodeOfEntry | key_presser.py:146-155 | every table name, and its lower-case spelling, gives exactly that entry's scancode |
| KeyPresser.IsKeyNameIffListed | key_presser.py:146-147 | a name is valid if and only if its upper-case form is among KEY_CODES.keys() |
| KeyPresser.UnknownKeyMessageListsKeys | key_presser.py:147-153 | an unknown name fails with the upper-cased name, the two fixed sentences, and a listing that splits back into all 101 distinct names in table order |
| KeyPresser.SharedScancode | key_presser.py:71-102 | DELETE and NUMPAD_PERIOD are both valid and give the same scancode 0x53 |
| KeyPresser.SpaceExample | key_presser.py:70 | "space" resolves to 0x39 |
| KeyPresser.F12Example | key_presser.py:89 | "f12" resolves to 0x58 |
| KeyPresser.UnknownNameFails | key_presser.py:147-153 | "nonexistent_key" is not a valid name |
| KeyPresser.KeyDown | key_presser.py:170-171 | the press input is a keyboard input for the scancode with the scancode flag and without the key-up flag |
| KeyPresser.KeyUp | key_presser.py:188-189 | the release input is a keyboard input for the scancode with both the scancode and the key-up flag |
| KeyPresser.EventWords | key_presser.py:116-118 | the flag words are 0x0008 for a press and 0x000A for a release, and every scancode fits the 16-bit scan field |
| KeyPresser.Hold | key_presser.py:157-173 | holding succeeds if and only if the name is valid; an invalid name fails with get_hex_key_code's ValueError and changes nothing |
| KeyPresser.Release | key_presser.py:175-191 | releasing succeeds if and only if the name is valid; an invalid name fails with get_hex_key_code's ValueError and changes nothing; the held set never grows |
| KeyPresser.HoldAndRelease | key_presser.py:193-206 | succeeds if and only if the name is valid and the duration is not negative; an invalid name fails with get_hex_key_code's ValueError and changes nothing |
| KeyPresser.ReleaseEach | key_presser.py:218-219 | releasing names one after another never adds a held name |
| KeyPresser.HoldPasses | key_presser.py:157-173 | a valid name sends one key-down input for its scancode and joins the set as spelled |
| KeyPresser.ReleasePasses | key_presser.py:175-191 | a valid name sends one key-up input for its scancode and leaves the set as spelled |
| KeyPresser.HoldKeepsHeldKeys | key_presser.py:157-173 | after a hold, every held name is still a valid key name |
| KeyPresser.HoldTwice | key_presser.py:157-173 | holding a key twice sends two key-down inputs and the name is held once |
| KeyPresser.ReleaseNotHeld | key_presser.py:175-191 | releasing a name that is not held still sends a key-up input and leaves the set unchanged |
| KeyPresser.HoldAndReleaseEffect | key_presser.py:193-206 | with a non-negative duration, a down then an up input are sent and the name ends up not held |
| KeyPresser.NegativeDurationLeavesKeyHeld | key_presser.py:203-205 | with a negative duration, the key-down is sent, no key-up follows, the name stays held and the call fails with time.sleep's ValueError |
| KeyPresser.ReleaseOtherSpelling | key_presser.py:157-191 | releasing a differently-cased spelling sends the key-up for the same scancode but leaves the held spelling in the set |
| KeyPresser.SpaceThenUpperSpace | key_presser.py:157-191 | holding "space" and releasing "SPACE" sends down and up for 0x39 and leaves {"space"} held |
| KeyPresser.EnumerationSize | key_presser.py:218 | a duplicate-free listing of a set has exactly as many entries as the set |
| KeyPresser.ReleaseEachEffect | key_presser.py:218-219 | releasing valid names one by one succeeds, removes exactly those names and sends one key-up per name in order |
| KeyPresser.ReleasedSoFarStep | key_presser.py:218-219 | in the middle of release_all_keys, releasing one more name of the snapshot succeeds, lists it once more and sends its key-up |
| KeyPresser.ReleasedSoFarDone | key_presser.py:218-219 | once no name remains, the release order lists the whole snapshot and the state is what ReleaseEach gives: nothing held, one key-up per name |
| KeyPresser.ReleaseAllEffect | key_presser.py:208-219 | for every listing of a valid held set, releasing all leaves the set empty and sends exactly one key-up per held name |
| KeyPresser.KeyPresser.constructor | key_presser.py:120-125 | a new controller holds nothing and has sent nothing |
| KeyPresser.KeyPresser.SendInput | key_presser.py:172 | the input is appended to what the operating system has received; the held set is untouched |
| KeyPresser.KeyPresser.HoldKey | key_presser.py:157-173 | outcome and new state are those of Hold, and if only valid names were held, still only valid names are held |
| KeyPresser.KeyPresser.ReleaseKey | key_presser.py:175-191 | outcome and new state are those of Release, and if only valid names were held, still only valid names are held |
| KeyPresser.KeyPresser.HoldAndReleaseKey | key_presser.py:193-206 | outcome and new state are those of HoldAndRelease, and if only valid names were held, still only valid names are held |
| KeyPresser.KeyPresser.ReleaseAllKeys | key_presser.py:208-219 | the names are released in an order that lists the old set exactly once, the outcome and new state are those of ReleaseEach over that order, the set ends empty and one key-up per name is appended |

## Left out

- The ctypes and pynput structures behind `SendInput` are reduced to the fields
  the code sets: input type, scancode and flags. The virtual-key code and time
  stamp are always 0. The extra information is a pointer to a zero `c_ulong`; it is
  not modelled. The return value of `SendInput` is ignored by the code and is not
  modelled.
- `time.sleep` is modelled only by its rejection of a negative duration. The
  waiting itself is not modelled, and neither are NaN or infinite durations,
  because durations are `real`.
- `KeyPresser.HoldAndRelease`: a duration too large for `time.sleep`'s clock (for
  instance 1e10 seconds) raises `OverflowError` in CPython after the key-down, so
  the key stays held. The model does not bound the duration: it releases the key
  and reports success. The limit depends on the interpreter's clock type and
  version.
- `KeyPresser.NegativeDurationLeavesKeyHeld`: a negative duration below
  `time.sleep`'s clock range (for instance -1e10 seconds) raises `OverflowError`
  in CPython, not `ValueError`. The model reports the `ValueError` for every
  negative duration. The state is the same in both cases: one key-down was sent
  and the key stays held.
- `Text.ToUpper`: models `str.upper` on ASCII only. Python also upper-cases other
  characters, for instance `"ı"` to `"I"` and `"ſ"` to `"S"`, so `"ſpace"` is a
  valid name in Python but not in the model.
- `KeyPresser.GetHexKeyCodeIgnoresCase`: the lower-case half holds only for the
  ASCII case mapping of the model. In Python, U+212A KELVIN SIGN is its own
  upper-case form, so its lookup fails, but its lower-case form is `"k"`, which
  resolves to 0x25. For names made of ASCII characters, such as every valid key
  name, the two lookups agree as stated.
- `get_instance` (the lazily created, process-wide singleton) is not modelled.
  The model constructs controllers directly.
- `KeyPresser.KeyPresser.ReleaseAllKeys`: Python's set iteration order (hash
  order) is not modelled. The order is left open and returned as a ghost value.
- Callers that change `pressed_keys` directly are not modelled. Every method
  preserves the invariant that every held name is a valid key name, and the
  constructor establishes it. `release_all_keys` relies on it: a held name that
  is not a key name would make `release_key` raise part-way.
- Threads and concurrent access are not modelled.

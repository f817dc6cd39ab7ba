/**
 * The KeyPresser controller: case-insensitive scancode lookup, the keyboard
 * inputs it hands to SendInput, and the set of names it believes held down.
 *
 * The operating system is modelled by the list of inputs sent to it. The
 * controller's observable state is that list together with the held-name set;
 * `Observed` is that state as a value, and the functions Hold, Release,
 * HoldAndRelease and ReleaseEach say what each operation does to it. The
 * class KeyPresser updates the state in place and each of its methods is
 * proved to do exactly what the matching function says.
 */
module KeyPresser {
  import opened Wrappers
  import opened Text
  import opened KeyTable

  /** Python's ValueError, with its message. */
  datatype KeyError = ValueError(message: string)

  const NotValidText: string := " is not a valid key name. "
  const ChoicesText: string := "Please choose from the following valid keys: "

  /** The message of time.sleep for a negative duration. */
  const NegativeSleepText: string := "sleep length must be non-negative"

  /** The message for an unknown (already upper-cased) name: the name, then every valid name joined by ", ". */
  function UnknownKeyMessage(key: string): (r: string)
    ensures key <= r && NotValidText <= r[|key|..]
  {
    key + NotValidText + ChoicesText + Join(KeyNames())
  }

  /** The first position of `key` among the names of `es`, if it occurs. */
  function Find(es: seq<(string, int)>, key: string): (r: Option<nat>)
    ensures r.Some? ==> r.value < |es| && es[r.value].0 == key
  {
    if es == [] then None
    else if es[0].0 == key then Some(0)
    else match Find(es[1..], key)
      case None => None
      case Some(i) => Some(i + 1)
  }

  /** Find reports the first position holding `key`, and reports none only when no position does. */
  lemma {:induction false} FindSpec(es: seq<(string, int)>, key: string)
    ensures var r := Find(es, key);
      && (r.Some? ==> r.value < |es| && es[r.value].0 == key)
      && (r.Some? ==> forall j :: 0 <= j < r.value ==> es[j].0 != key)
      && (r.None? ==> forall i :: 0 <= i < |es| ==> es[i].0 != key)
    decreases |es|
  {
    if es != [] && es[0].0 != key {
      FindSpec(es[1..], key);
      assert forall i :: 1 <= i < |es| ==> es[i] == es[1..][i - 1];
    }
  }

  /** get_hex_key_code: the scancode of the upper-cased name, or a ValueError listing the valid names. */
  function GetHexKeyCode(keyName: string): (r: Result<int, KeyError>)
    ensures r.Err? ==> r.error == ValueError(UnknownKeyMessage(ToUpper(keyName)))
  {
    FindSpec(Entries, ToUpper(keyName));
    var key := ToUpper(keyName);
    match Find(Entries, key)
    case None => Err(ValueError(UnknownKeyMessage(key)))
    case Some(i) => Ok(Entries[i].1)
  }

  /**
   * The lookup succeeds exactly when the upper-cased name is in the table,
   * and then gives that entry's scancode (names are distinct, so the entry is unique).
   */
  lemma GetHexKeyCodeSpec(keyName: string)
    ensures GetHexKeyCode(keyName).Ok? <==> exists i :: 0 <= i < |Entries| && Entries[i].0 == ToUpper(keyName)
    ensures forall i :: 0 <= i < |Entries| && Entries[i].0 == ToUpper(keyName) ==> GetHexKeyCode(keyName) == Ok(Entries[i].1)
  {
    TableNamesDistinct();
    FindSpec(Entries, ToUpper(keyName));
  }

  predicate IsKeyName(keyName: string) {
    GetHexKeyCode(keyName).Ok?
  }

  function Code(keyName: string): int
    requires IsKeyName(keyName)
  {
    GetHexKeyCode(keyName).value
  }

  /** The lookup does not depend on the case of the name. */
  lemma GetHexKeyCodeIgnoresCase(keyName: string)
    ensures GetHexKeyCode(keyName) == GetHexKeyCode(ToUpper(keyName))
    ensures GetHexKeyCode(keyName) == GetHexKeyCode(ToLower(keyName))
  {
    ToUpperIdempotent(keyName);
    ToUpperOfLower(keyName);
  }

  /** Every name of the table, and its lower-case spelling, gives that entry's own scancode. */
  lemma GetHexKeyCodeOfEntry(i: nat)
    requires i < |Entries|
    ensures GetHexKeyCode(Entries[i].0) == Ok(Entries[i].1)
    ensures GetHexKeyCode(ToLower(Entries[i].0)) == Ok(Entries[i].1)
  {
    TableNamesWellFormed();
    var name := Entries[i].0;
    assert forall j :: 0 <= j < |name| ==> IsNameChar(name[j]);
    ToUpperFixes(name);
    GetHexKeyCodeSpec(name);
    GetHexKeyCodeIgnoresCase(name);
  }

  /** A name is valid exactly when its upper-case form is one of the table's names. */
  lemma IsKeyNameIffListed(keyName: string)
    ensures IsKeyName(keyName) <==> ToUpper(keyName) in KeyNames()
  {
    GetHexKeyCodeSpec(keyName);
    if IsKeyName(keyName) {
      var i :| 0 <= i < |Entries| && Entries[i].0 == ToUpper(keyName);
      assert KeyNames()[i] == ToUpper(keyName);
    }
  }

  /**
   * An unknown name fails with a message that starts with the upper-cased name
   * and then lists every valid name exactly once, in table order, separated by ", ".
   */
  lemma UnknownKeyMessageListsKeys(keyName: string)
    requires !IsKeyName(keyName)
    ensures GetHexKeyCode(keyName).error.message
         == ToUpper(keyName) + NotValidText + ChoicesText + Join(KeyNames())
    ensures Split(Join(KeyNames())) == KeyNames()
    ensures |KeyNames()| == 101
    ensures forall i, j :: 0 <= i < j < |KeyNames()| ==> KeyNames()[i] != KeyNames()[j]
  {
    KeyNamesCommaFree();
    KeyNamesDistinct();
    SplitJoin(KeyNames());
  }

  lemma KeyNamesCommaFree()
    ensures |KeyNames()| == 101
    ensures forall i :: 0 <= i < |KeyNames()| ==> ',' !in KeyNames()[i]
  {
    TableNamesWellFormed();
    KeyboardCodesBelow0x100();
    var names := KeyNames();
    forall i | 0 <= i < |names| ensures ',' !in names[i] {
      assert names[i] == Entries[i].0;
      assert forall j :: 0 <= j < |names[i]| ==> IsNameChar(names[i][j]);
    }
  }

  lemma KeyNamesDistinct()
    ensures forall i, j :: 0 <= i < j < |KeyNames()| ==> KeyNames()[i] != KeyNames()[j]
  {
    TableNamesDistinct();
  }

  /** DELETE and NUMPAD_PERIOD are different names that share the scancode 0x53. */
  lemma SharedScancode()
    ensures IsKeyName("DELETE") && IsKeyName("NUMPAD_PERIOD")
    ensures Code("DELETE") == Code("NUMPAD_PERIOD") == 0x53
  {
    NamedEntries();
    GetHexKeyCodeOfEntry(57);
    GetHexKeyCodeOfEntry(88);
  }

  lemma UpperCaseOfSpace()
    ensures ToUpper("space") == "SPACE"
  {
  }

  lemma UpperCaseOfF12()
    ensures ToUpper("f12") == "F12"
  {
  }

  /** Example of the lookup: "space" resolves to the scancode of SPACE. */
  lemma SpaceExample()
    ensures GetHexKeyCode("space") == Ok(0x39)
  {
    UpperCaseOfSpace();
    NamedEntries();
    GetHexKeyCodeSpec("space");
  }

  /** Example of the lookup: "f12" resolves to the scancode of F12. */
  lemma F12Example()
    ensures GetHexKeyCode("f12") == Ok(0x58)
  {
    UpperCaseOfF12();
    NamedEntries();
    GetHexKeyCodeSpec("f12");
  }

  /** "nonexistent_key" is unknown: its upper-case form is in none of the groups. */
  lemma UnknownNameFails()
    ensures !IsKeyName("nonexistent_key")
  {
    UnknownNameAbsent();
    GetHexKeyCodeSpec("nonexistent_key");
  }

  lemma UnknownNameAbsent()
    ensures forall i :: 0 <= i < |Entries| ==> Entries[i].0 != ToUpper("nonexistent_key")
  {
    var missing := [("NONEXISTENT_KEY", 0)];
    assert ToUpper("nonexistent_key") == "NONEXISTENT_KEY";
    AbsentFromGroups();
    forall k | 0 <= k < |Groups| ensures NamesDisjoint(Groups[k], missing) {
    }
    FlattenDisjoint(Groups, missing);
    EntriesAreGroups();
    assert NamesDisjoint(Entries, missing);
  }

  lemma AbsentFromGroups()
    ensures forall i :: 0 <= i < |TopRow| ==> TopRow[i].0 != "NONEXISTENT_KEY"
    ensures forall i :: 0 <= i < |HomeRow| ==> HomeRow[i].0 != "NONEXISTENT_KEY"
    ensures forall i :: 0 <= i < |BottomRow| ==> BottomRow[i].0 != "NONEXISTENT_KEY"
    ensures forall i :: 0 <= i < |Arrows| ==> Arrows[i].0 != "NONEXISTENT_KEY"
    ensures forall i :: 0 <= i < |NumberRow| ==> NumberRow[i].0 != "NONEXISTENT_KEY"
    ensures forall i :: 0 <= i < |ModifierBlock| ==> ModifierBlock[i].0 != "NONEXISTENT_KEY"
    ensures forall i :: 0 <= i < |PunctuationBlock| ==> PunctuationBlock[i].0 != "NONEXISTENT_KEY"
    ensures forall i :: 0 <= i < |FunctionKeys| ==> FunctionKeys[i].0 != "NONEXISTENT_KEY"
    ensures forall i :: 0 <= i < |NumpadDigits| ==> NumpadDigits[i].0 != "NONEXISTENT_KEY"
    ensures forall i :: 0 <= i < |NumpadOperators| ==> NumpadOperators[i].0 != "NONEXISTENT_KEY"
    ensures forall i :: 0 <= i < |MouseButtons| ==> MouseButtons[i].0 != "NONEXISTENT_KEY"
    ensures forall i :: 0 <= i < |MouseWheel| ==> MouseWheel[i].0 != "NONEXISTENT_KEY"
  {
  }

  /**
   * One INPUT record handed to SendInput: its type and, of the KEYBDINPUT it
   * carries, the scancode and the flags (the virtual-key code and the time
   * stamp are always 0; the extra information, a pointer to a zero c_ulong,
   * is not modelled).
   */
  datatype Event = KeyboardInput(inputType: int, scanCode: int, flags: bv32)

  predicate IsKeyUp(e: Event) {
    e.flags & KeyEventKeyUp != 0
  }

  /** The input hold_key sends: a scancode event without the key-up flag. */
  function KeyDown(code: int): (e: Event)
    ensures e.inputType == InputKeyboard && e.scanCode == code
    ensures e.flags & KeyEventScancode != 0 && !IsKeyUp(e)
  {
    KeyboardInput(InputKeyboard, code, KeyEventScancode)
  }

  /** The input release_key sends: a scancode event with the key-up flag. */
  function KeyUp(code: int): (e: Event)
    ensures e.inputType == InputKeyboard && e.scanCode == code
    ensures e.flags & KeyEventScancode != 0 && IsKeyUp(e)
  {
    KeyboardInput(InputKeyboard, code, KeyEventScancode | KeyEventKeyUp)
  }

  /** The flag words are 0x0008 for a press and 0x000A for a release, and every scancode fits the 16-bit wScan field. */
  lemma EventWords(keyName: string)
    requires IsKeyName(keyName)
    ensures KeyDown(Code(keyName)).flags == 0x0008
    ensures KeyUp(Code(keyName)).flags == 0x000A
    ensures 0 < Code(keyName) < 0x10000
  {
    KeyboardCodesBelow0x100();
    MouseCodesConsecutive();
    GetHexKeyCodeSpec(keyName);
    var i :| 0 <= i < |Entries| && Entries[i].0 == ToUpper(keyName);
    assert Code(keyName) == Entries[i].1;
  }

  /** What the controller can be seen to do: the names it believes held, and every input sent so far. */
  datatype Observed = Observed(pressed: set<string>, sent: seq<Event>)

  /** Every held name is a valid key name (only hold_key adds names, after a successful lookup). */
  predicate HeldAreKeys(s: Observed) {
    forall k :: k in s.pressed ==> IsKeyName(k)
  }

  /** hold_key: send a key-down input and remember the name as given; an unknown name changes nothing. */
  function Hold(s: Observed, keyName: string): (r: (Outcome<KeyError>, Observed))
    ensures r.0.Pass? <==> IsKeyName(keyName)
    ensures !IsKeyName(keyName) ==> r.0 == Fail(GetHexKeyCode(keyName).error)
    ensures r.0.Fail? ==> r.1 == s
  {
    match GetHexKeyCode(keyName)
    case Err(e) => (Fail(e), s)
    case Ok(code) => (Pass, Observed(s.pressed + {keyName}, s.sent + [KeyDown(code)]))
  }

  /** release_key: send a key-up input and forget the name as given; an unknown name changes nothing. */
  function Release(s: Observed, keyName: string): (r: (Outcome<KeyError>, Observed))
    ensures r.0.Pass? <==> IsKeyName(keyName)
    ensures !IsKeyName(keyName) ==> r.0 == Fail(GetHexKeyCode(keyName).error)
    ensures r.0.Fail? ==> r.1 == s
    ensures r.1.pressed <= s.pressed
  {
    match GetHexKeyCode(keyName)
    case Err(e) => (Fail(e), s)
    case Ok(code) => (Pass, Observed(s.pressed - {keyName}, s.sent + [KeyUp(code)]))
  }

  /**
   * hold_and_release_key: hold, wait, release. A failed hold is passed on
   * unchanged. A negative duration makes the wait itself fail, after the key
   * went down and before it is released.
   */
  function HoldAndRelease(s: Observed, keyName: string, seconds: real): (r: (Outcome<KeyError>, Observed))
    ensures r.0.Pass? <==> IsKeyName(keyName) && seconds >= 0.0
    ensures !IsKeyName(keyName) ==> r.0 == Fail(GetHexKeyCode(keyName).error) && r.1 == s
  {
    var (held, s1) := Hold(s, keyName);
    if held.Fail? then (held, s1)
    else if seconds < 0.0 then (Fail(ValueError(NegativeSleepText)), s1)
    else Release(s1, keyName)
  }

  /** release_key applied to the names of `order` in turn, stopping at the first failure. */
  function ReleaseEach(s: Observed, order: seq<string>): (r: (Outcome<KeyError>, Observed))
    ensures r.1.pressed <= s.pressed
    decreases |order|
  {
    if order == [] then (Pass, s)
    else
      var (o, s1) := ReleaseEach(s, order[..|order| - 1]);
      if o.Fail? then (o, s1) else Release(s1, order[|order| - 1])
  }

  /** The key-up inputs for the names of `order`, in that order. */
  function UpEvents(order: seq<string>): (es: seq<Event>)
    requires forall i :: 0 <= i < |order| ==> IsKeyName(order[i])
    ensures |es| == |order|
  {
    seq(|order|, i requires 0 <= i < |order| => KeyUp(Code(order[i])))
  }

  /** The names occurring in `order`. */
  function Listed(order: seq<string>): set<string> {
    set k | k in order
  }

  /** `order` lists every name of `keys` exactly once. */
  predicate Enumerates(order: seq<string>, keys: set<string>) {
    && (forall i, j :: 0 <= i < j < |order| ==> order[i] != order[j])
    && (forall i :: 0 <= i < |order| ==> order[i] in keys)
    && (forall k :: k in keys ==> k in order)
  }

  /** Appending a name not yet listed lists one more name. */
  lemma EnumeratesStep(order: seq<string>, keys: set<string>, k: string)
    requires Enumerates(order, keys) && k !in keys
    ensures Enumerates(order + [k], keys + {k})
  {
    var extended := order + [k];
    forall x | x in keys + {k} ensures x in extended {
      if x != k {
        var i :| 0 <= i < |order| && order[i] == x;
        assert extended[i] == x;
      } else {
        assert extended[|order|] == k;
      }
    }
  }

  lemma EnumeratedListed(order: seq<string>, keys: set<string>)
    requires Enumerates(order, keys)
    ensures Listed(order) == keys
  {
  }

  /** A listing of a set has as many entries as the set has names. */
  lemma {:induction false} EnumerationSize(order: seq<string>, keys: set<string>)
    requires Enumerates(order, keys)
    ensures |order| == |keys|
    decreases |order|
  {
    if order != [] {
      var last := order[|order| - 1];
      var init := order[..|order| - 1];
      assert Enumerates(init, keys - {last}) by {
        forall k | k in keys - {last} ensures k in init {
          var i :| 0 <= i < |order| && order[i] == k;
          assert i != |order| - 1;
          assert init[i] == k;
        }
      }
      EnumerationSize(init, keys - {last});
    } else {
      assert forall k :: k !in keys;
      assert keys == {};
    }
  }

  /** A valid name is held: one key-down input for its scancode, and the name as given joins the set. */
  lemma HoldPasses(s: Observed, keyName: string)
    requires IsKeyName(keyName)
    ensures Hold(s, keyName) == (Pass, Observed(s.pressed + {keyName}, s.sent + [KeyDown(Code(keyName))]))
  {
  }

  /** A valid name is released: one key-up input for its scancode, and the name as given leaves the set. */
  lemma ReleasePasses(s: Observed, keyName: string)
    requires IsKeyName(keyName)
    ensures Release(s, keyName) == (Pass, Observed(s.pressed - {keyName}, s.sent + [KeyUp(Code(keyName))]))
  {
  }

  /** Holding keeps every held name a valid key name (releasing only ever removes names). */
  lemma HoldKeepsHeldKeys(s: Observed, keyName: string)
    requires HeldAreKeys(s)
    ensures HeldAreKeys(Hold(s, keyName).1)
  {
    if IsKeyName(keyName) {
      HoldPasses(s, keyName);
    }
  }

  lemma ListedSnoc(init: seq<string>, last: string)
    ensures Listed(init + [last]) == Listed(init) + {last}
  {
  }

  lemma UpEventsSnoc(init: seq<string>, last: string)
    requires forall i :: 0 <= i < |init| ==> IsKeyName(init[i])
    requires IsKeyName(last)
    ensures UpEvents(init + [last]) == UpEvents(init) + [KeyUp(Code(last))]
  {
  }

  /** Holding the same key twice sends two key-down inputs and holds the name once. */
  lemma HoldTwice(s: Observed, keyName: string)
    requires IsKeyName(keyName)
    ensures var twice := Hold(Hold(s, keyName).1, keyName);
      && twice.0 == Pass
      && twice.1.pressed == s.pressed + {keyName}
      && twice.1.sent == s.sent + [KeyDown(Code(keyName)), KeyDown(Code(keyName))]
  {
  }

  /** Releasing a name that is not held still sends a key-up input and leaves the held set alone. */
  lemma ReleaseNotHeld(s: Observed, keyName: string)
    requires IsKeyName(keyName) && keyName !in s.pressed
    ensures Release(s, keyName) == (Pass, Observed(s.pressed, s.sent + [KeyUp(Code(keyName))]))
  {
    assert s.pressed - {keyName} == s.pressed;
  }

  /** Holding and then releasing a key sends down then up and leaves the name not held. */
  lemma HoldAndReleaseEffect(s: Observed, keyName: string, seconds: real)
    requires IsKeyName(keyName) && seconds >= 0.0
    ensures HoldAndRelease(s, keyName, seconds)
         == (Pass, Observed(s.pressed - {keyName}, s.sent + [KeyDown(Code(keyName)), KeyUp(Code(keyName))]))
  {
    HoldPasses(s, keyName);
    var s1 := Hold(s, keyName).1;
    ReleasePasses(s1, keyName);
    assert s1.pressed - {keyName} == s.pressed - {keyName};
    assert s1.sent + [KeyUp(Code(keyName))] == s.sent + [KeyDown(Code(keyName)), KeyUp(Code(keyName))];
  }

  /** With a negative duration the key goes down, is never released, and stays in the held set. */
  lemma NegativeDurationLeavesKeyHeld(s: Observed, keyName: string, seconds: real)
    requires IsKeyName(keyName) && seconds < 0.0
    ensures HoldAndRelease(s, keyName, seconds)
         == (Fail(ValueError(NegativeSleepText)), Observed(s.pressed + {keyName}, s.sent + [KeyDown(Code(keyName))]))
  {
  }

  /**
   * Names are remembered as given: releasing a differently-cased spelling
   * sends the key-up input for the same scancode but leaves the held spelling
   * in the set.
   */
  lemma ReleaseOtherSpelling(s: Observed, held: string, other: string)
    requires IsKeyName(held) && held != other && ToUpper(held) == ToUpper(other)
    ensures var after := Release(Hold(s, held).1, other);
      && after.0 == Pass
      && held in after.1.pressed
      && after.1.sent == s.sent + [KeyDown(Code(held)), KeyUp(Code(held))]
  {
    GetHexKeyCodeIgnoresCase(held);
    GetHexKeyCodeIgnoresCase(other);
  }

  /** The scenario: hold "space", release "SPACE"; the OS sees the key go up, the set still holds "space". */
  lemma SpaceThenUpperSpace()
    ensures var after := Release(Hold(Observed({}, []), "space").1, "SPACE");
      && after.1.pressed == {"space"}
      && after.1.sent == [KeyDown(0x39), KeyUp(0x39)]
  {
    SpaceExample();
    UpperCaseOfSpace();
    GetHexKeyCodeIgnoresCase("space");
    ReleaseOtherSpelling(Observed({}, []), "space", "SPACE");
  }

  /**
   * Releasing the names of `order` one by one, when every one of them is a
   * key name, succeeds, removes exactly those names from the set and sends
   * one key-up input per name, in order.
   */
  lemma {:induction false} ReleaseEachEffect(s: Observed, order: seq<string>)
    requires forall i :: 0 <= i < |order| ==> IsKeyName(order[i])
    ensures ReleaseEach(s, order)
         == (Pass, Observed(s.pressed - Listed(order), s.sent + UpEvents(order)))
    decreases |order|
  {
    if order == [] {
      assert Listed(order) == {};
      assert s.pressed - Listed(order) == s.pressed;
      assert s.sent + UpEvents(order) == s.sent;
      assert ReleaseEach(s, order) == (Pass, s);
    } else {
      var init, last := order[..|order| - 1], order[|order| - 1];
      assert forall i :: 0 <= i < |init| ==> init[i] == order[i];
      ReleaseEachEffect(s, init);
      DropLast(order);
      ReleaseEachLast(s, init, last);
    }
  }

  /** Releasing one more valid name after the names of `init` were released. */
  lemma ReleaseEachLast(s: Observed, init: seq<string>, last: string)
    requires forall i :: 0 <= i < |init| ==> IsKeyName(init[i])
    requires IsKeyName(last)
    requires ReleaseEach(s, init) == (Pass, Observed(s.pressed - Listed(init), s.sent + UpEvents(init)))
    ensures ReleaseEach(s, init + [last])
         == (Pass, Observed(s.pressed - Listed(init + [last]), s.sent + UpEvents(init + [last])))
  {
    var order := init + [last];
    assert order[..|order| - 1] == init;
    var s1 := Observed(s.pressed - Listed(init), s.sent + UpEvents(init));
    assert ReleaseEach(s, order) == Release(s1, last);
    ReleasePasses(s1, last);
    ListedSnoc(init, last);
    UpEventsSnoc(init, last);
    RemoveOneMore(s.pressed, Listed(init), last);
    SendOneMore(s.sent, UpEvents(init), KeyUp(Code(last)));
  }

  lemma RemoveOneMore(keys: set<string>, gone: set<string>, k: string)
    ensures (keys - gone) - {k} == keys - (gone + {k})
  {
  }

  lemma DropLast(order: seq<string>)
    requires order != []
    ensures order == order[..|order| - 1] + [order[|order| - 1]]
  {
  }

  lemma SendOneMore(sent: seq<Event>, ups: seq<Event>, e: Event)
    ensures (sent + ups) + [e] == sent + (ups + [e])
  {
  }

  /**
   * The state part-way through release_all_keys: the names of `order` have
   * been released from the snapshot `s0.pressed`, `remaining` are still held,
   * and one key-up input per released name has been sent.
   */
  predicate ReleasedSoFar(s0: Observed, order: seq<string>, remaining: set<string>, now: Observed) {
    && HeldAreKeys(s0)
    && remaining <= s0.pressed && now.pressed == remaining
    && Enumerates(order, s0.pressed - remaining)
    && (forall i :: 0 <= i < |order| ==> IsKeyName(order[i]))
    && now.sent == s0.sent + UpEvents(order)
  }

  /** Releasing one more remaining name succeeds and keeps the description. */
  lemma ReleasedSoFarStep(s0: Observed, order: seq<string>, remaining: set<string>, now: Observed, k: string)
    requires ReleasedSoFar(s0, order, remaining, now) && k in remaining
    ensures Release(now, k).0 == Pass
    ensures ReleasedSoFar(s0, order + [k], remaining - {k}, Release(now, k).1)
  {
    assert IsKeyName(k);
    ReleasePasses(now, k);
    UpEventsSnoc(order, k);
    EnumeratesStep(order, s0.pressed - remaining, k);
    assert (s0.pressed - remaining) + {k} == s0.pressed - (remaining - {k});
  }

  /** With nothing remaining, the names were released in an order listing the snapshot, as ReleaseEach says. */
  lemma ReleasedSoFarDone(s0: Observed, order: seq<string>, now: Observed)
    requires ReleasedSoFar(s0, order, {}, now)
    ensures Enumerates(order, s0.pressed)
    ensures (Pass, now) == ReleaseEach(s0, order)
    ensures now == Observed({}, s0.sent + UpEvents(order))
  {
    assert s0.pressed - {} == s0.pressed;
    ReleaseAllEffect(s0, order);
  }

  /**
   * release_all_keys, for whichever order the set is listed in: every held
   * name is released, the set ends empty and one key-up input is sent per
   * held name.
   */
  lemma ReleaseAllEffect(s: Observed, order: seq<string>)
    requires HeldAreKeys(s) && Enumerates(order, s.pressed)
    ensures forall i :: 0 <= i < |order| ==> IsKeyName(order[i])
    ensures ReleaseEach(s, order) == (Pass, Observed({}, s.sent + UpEvents(order)))
    ensures |UpEvents(order)| == |s.pressed|
  {
    assert forall i :: 0 <= i < |order| ==> order[i] in s.pressed;
    ReleaseEachEffect(s, order);
    EnumeratedListed(order, s.pressed);
    assert s.pressed - Listed(order) == {};
    EnumerationSize(order, s.pressed);
  }

  /**
   * The controller object. `pressedKeys` is the Python attribute; `sent`
   * stands for the operating system's record of the inputs SendInput received.
   */
  class KeyPresser {
    var pressedKeys: set<string>
    ghost var sent: seq<Event>

    ghost function State(): Observed
      reads this
    {
      Observed(pressedKeys, sent)
    }

    /** Only valid key names are ever held. */
    ghost predicate Valid()
      reads this
    {
      HeldAreKeys(State())
    }

    constructor ()
      ensures pressedKeys == {} && sent == []
      ensures Valid()
    {
      pressedKeys := {};
      sent := [];
    }

    /** SendInput with one INPUT record: the operating system receives it. */
    method SendInput(e: Event)
      modifies this
      ensures sent == old(sent) + [e]
      ensures pressedKeys == old(pressedKeys)
    {
      sent := sent + [e];
    }

    method HoldKey(keyName: string) returns (outcome: Outcome<KeyError>)
      modifies this
      ensures (outcome, State()) == Hold(old(State()), keyName)
      ensures old(Valid()) ==> Valid()
    {
      if Valid() {
        HoldKeepsHeldKeys(State(), keyName);
      }
      var code := GetHexKeyCode(keyName);
      if code.Err? {
        return Fail(code.error);
      }
      SendInput(KeyDown(code.value));
      pressedKeys := pressedKeys + {keyName};
      outcome := Pass;
    }

    method ReleaseKey(keyName: string) returns (outcome: Outcome<KeyError>)
      modifies this
      ensures (outcome, State()) == Release(old(State()), keyName)
      ensures old(Valid()) ==> Valid()
    {
      var code := GetHexKeyCode(keyName);
      if code.Err? {
        return Fail(code.error);
      }
      SendInput(KeyUp(code.value));
      pressedKeys := pressedKeys - {keyName};
      outcome := Pass;
    }

    /** hold_and_release_key; the wait is the duration check of time.sleep, the waiting itself is not modelled. */
    method HoldAndReleaseKey(keyName: string, seconds: real) returns (outcome: Outcome<KeyError>)
      modifies this
      ensures (outcome, State()) == HoldAndRelease(old(State()), keyName, seconds)
      ensures old(Valid()) ==> Valid()
    {
      outcome := HoldKey(keyName);
      if outcome.Fail? {
        return;
      }
      if seconds < 0.0 {
        return Fail(ValueError(NegativeSleepText));
      }
      outcome := ReleaseKey(keyName);
    }

    /**
     * release_all_keys: release every name of a snapshot of the held set, in
     * an order the model leaves open; `order` records the order taken.
     */
    method ReleaseAllKeys() returns (ghost order: seq<string>)
      requires Valid()
      modifies this
      ensures Enumerates(order, old(pressedKeys))
      ensures (Pass, State()) == ReleaseEach(old(State()), order)
      ensures pressedKeys == {} && sent == old(sent) + UpEvents(order)
      ensures Valid()
    {
      var remaining := pressedKeys;
      order := [];
      assert old(pressedKeys) - remaining == {};
      while remaining != {}
        invariant ReleasedSoFar(old(State()), order, remaining, State())
        decreases |remaining|
      {
        var k :| k in remaining;
        ghost var before := State();
        var released := ReleaseKey(k);
        ReleasedSoFarStep(old(State()), order, remaining, before, k);
        order := order + [k];
        remaining := remaining - {k};
      }
      ReleasedSoFarDone(old(State()), order, State());
    }
  }
}

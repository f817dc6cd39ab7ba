/**
 * The KEY_CODES table of the KeyPresser class and the class's constants.
 *
 * The dictionary literal is kept as an ordered list of (name, scancode) pairs
 * in the order it is written, split into twelve runs of consecutive entries
 * (letter rows, arrows, number row, ...) to keep proof obligations small; the
 * order matters because the unknown-key message lists the names in the
 * dictionary's iteration order. The facts proved here (names distinct and
 * spelled in upper case, scancode ranges) are proved run by run and then
 * lifted to the whole table.
 */
module KeyTable {

  /** Letter keys of the top row, Q to P. (key_presser.py:14-23) */
  const TopRow: seq<(string, int)> := [
    ("Q", 0x10),
    ("E", 0x12),
    ("W", 0x11),
    ("R", 0x13),
    ("T", 0x14),
    ("Y", 0x15),
    ("U", 0x16),
    ("I", 0x17),
    ("O", 0x18),
    ("P", 0x19)
  ]

  /** Letter keys of the home row, A to L. (key_presser.py:24-32) */
  const HomeRow: seq<(string, int)> := [
    ("A", 0x1E),
    ("S", 0x1F),
    ("D", 0x20),
    ("F", 0x21),
    ("G", 0x22),
    ("H", 0x23),
    ("J", 0x24),
    ("K", 0x25),
    ("L", 0x26)
  ]

  /** Letter keys of the bottom row, Z to M. (key_presser.py:33-39) */
  const BottomRow: seq<(string, int)> := [
    ("Z", 0x2C),
    ("X", 0x2D),
    ("C", 0x2E),
    ("V", 0x2F),
    ("B", 0x30),
    ("N", 0x31),
    ("M", 0x32)
  ]

  /** Arrow keys. (key_presser.py:40-43) */
  const Arrows: seq<(string, int)> := [
    ("LEFT_ARROW", 0xCB),
    ("RIGHT_ARROW", 0xCD),
    ("UP_ARROW", 0xC8),
    ("DOWN_ARROW", 0xD0)
  ]

  /** Escape, the digit row, minus, equals and backspace. (key_presser.py:44-57) */
  const NumberRow: seq<(string, int)> := [
    ("ESC", 0x01),
    ("ONE", 0x02),
    ("TWO", 0x03),
    ("THREE", 0x04),
    ("FOUR", 0x05),
    ("FIVE", 0x06),
    ("SIX", 0x07),
    ("SEVEN", 0x08),
    ("EIGHT", 0x09),
    ("NINE", 0x0A),
    ("ZERO", 0x0B),
    ("MINUS", 0x0C),
    ("EQUALS", 0x0D),
    ("BACKSPACE", 0x0E)
  ]

  /** Quote, semicolon, tab, caps lock, enter, the modifiers and tilde. (key_presser.py:58-67) */
  const ModifierBlock: seq<(string, int)> := [
    ("APOSTROPHE", 0x28),
    ("SEMICOLON", 0x27),
    ("TAB", 0x0F),
    ("CAPSLOCK", 0x3A),
    ("ENTER", 0x1C),
    ("LEFT_CONTROL", 0x1D),
    ("LEFT_ALT", 0x38),
    ("LEFT_SHIFT", 0x2A),
    ("RIGHT_SHIFT", 0x36),
    ("TILDE", 0x29)
  ]

  /** Print screen, num lock, space, delete and punctuation. (key_presser.py:68-77) */
  const PunctuationBlock: seq<(string, int)> := [
    ("PRINTSCREEN", 0x37),
    ("NUM_LOCK", 0x45),
    ("SPACE", 0x39),
    ("DELETE", 0x53),
    ("COMMA", 0x33),
    ("PERIOD", 0x34),
    ("BACKSLASH", 0x35),
    ("FORWARDSLASH", 0x2B),
    ("LEFT_BRACKET", 0x1A),
    ("RIGHT_BRACKET", 0x1B)
  ]

  /** F1 to F12. (key_presser.py:78-89) */
  const FunctionKeys: seq<(string, int)> := [
    ("F1", 0x3B),
    ("F2", 0x3C),
    ("F3", 0x3D),
    ("F4", 0x3E),
    ("F5", 0x3F),
    ("F6", 0x40),
    ("F7", 0x41),
    ("F8", 0x42),
    ("F9", 0x43),
    ("F10", 0x44),
    ("F11", 0x57),
    ("F12", 0x58)
  ]

  /** Numeric keypad digits. (key_presser.py:90-99) */
  const NumpadDigits: seq<(string, int)> := [
    ("NUMPAD_0", 0x52),
    ("NUMPAD_1", 0x4F),
    ("NUMPAD_2", 0x50),
    ("NUMPAD_3", 0x51),
    ("NUMPAD_4", 0x4B),
    ("NUMPAD_5", 0x4C),
    ("NUMPAD_6", 0x4D),
    ("NUMPAD_7", 0x47),
    ("NUMPAD_8", 0x48),
    ("NUMPAD_9", 0x49)
  ]

  /** Numeric keypad plus, minus, period, enter and slash. (key_presser.py:100-104) */
  const NumpadOperators: seq<(string, int)> := [
    ("NUMPAD_PLUS", 0x4E),
    ("NUMPAD_MINUS", 0x4A),
    ("NUMPAD_PERIOD", 0x53),
    ("NUMPAD_ENTER", 0x9C),
    ("NUMPAD_BACKSLASH", 0xB5)
  ]

  /** Mouse buttons, as private pseudo-scancodes above the keyboard range. (key_presser.py:105-112) */
  const MouseButtons: seq<(string, int)> := [
    ("LEFT_MOUSE", 0x100),
    ("RIGHT_MOUSE", 0x101),
    ("MIDDLE_MOUSE", 0x102),
    ("MOUSE3", 0x103),
    ("MOUSE4", 0x104),
    ("MOUSE5", 0x105),
    ("MOUSE6", 0x106),
    ("MOUSE7", 0x107)
  ]

  /** Mouse wheel, as private pseudo-scancodes above the keyboard range. (key_presser.py:113-114) */
  const MouseWheel: seq<(string, int)> := [
    ("MOUSE_WHEEL_UP", 0x108),
    ("MOUSE_WHEEL_DOWN", 0x109)
  ]
  /** The twelve runs the model splits KEY_CODES into, in table order. */
  const Groups: seq<seq<(string, int)>> := [
    TopRow, HomeRow, BottomRow, Arrows, NumberRow, ModifierBlock, PunctuationBlock, FunctionKeys,
    NumpadDigits, NumpadOperators, MouseButtons, MouseWheel
  ]

  /** KEY_CODES, in the order of the dictionary literal (key_presser.py:13-115). */
  const Entries: seq<(string, int)> :=
    TopRow + HomeRow + BottomRow + Arrows + NumberRow + ModifierBlock + PunctuationBlock + FunctionKeys +
    NumpadDigits + NumpadOperators + MouseButtons + MouseWheel

  /** The number of entries before LEFT_MOUSE, the first mouse pseudo-scancode. */
  const KeyboardEntries: nat := 91

  /** KEY_EVENT_KEY_UP (key_presser.py:116) */
  const KeyEventKeyUp: bv32 := 0x0002

  /** KEY_EVENT_SCANCODE (key_presser.py:117) */
  const KeyEventScancode: bv32 := 0x0008

  /** INPUT_KEYBOARD (key_presser.py:118) */
  const InputKeyboard: int := 1

  /** KEY_CODES.keys(), in iteration order: one name per entry, 101 in all. */
  function KeyNames(): (r: seq<string>)
    ensures |r| == |Entries| == 101
    ensures forall i :: 0 <= i < |r| ==> r[i] == Entries[i].0
  {
    KeyboardCodesBelow0x100();
    seq(|Entries|, i requires 0 <= i < |Entries| => Entries[i].0)
  }

  predicate IsNameChar(c: char) {
    ('A' <= c <= 'Z') || ('0' <= c <= '9') || c == '_'
  }

  /** Every name is spelled with upper-case letters, digits and underscores. */
  predicate WellFormedNames(es: seq<(string, int)>) {
    forall i, j :: 0 <= i < |es| && 0 <= j < |es[i].0| ==> IsNameChar(es[i].0[j])
  }

  predicate NamesDistinct(es: seq<(string, int)>) {
    forall i, j :: 0 <= i < j < |es| ==> es[i].0 != es[j].0
  }

  predicate NamesDisjoint(a: seq<(string, int)>, b: seq<(string, int)>) {
    forall i, j :: 0 <= i < |a| && 0 <= j < |b| ==> a[i].0 != b[j].0
  }

  /** The concatenation of a list of groups. */
  function Flatten(gs: seq<seq<(string, int)>>): seq<(string, int)> {
    if gs == [] then [] else Flatten(gs[..|gs| - 1]) + gs[|gs| - 1]
  }

  lemma {:induction false} FlattenSnoc(gs: seq<seq<(string, int)>>, k: nat)
    requires k < |gs|
    ensures Flatten(gs[..k + 1]) == Flatten(gs[..k]) + gs[k]
  {
    assert gs[..k + 1][..k] == gs[..k];
  }

  lemma {:induction false} FlattenDisjoint(gs: seq<seq<(string, int)>>, g: seq<(string, int)>)
    requires forall k :: 0 <= k < |gs| ==> NamesDisjoint(gs[k], g)
    ensures NamesDisjoint(Flatten(gs), g)
    decreases |gs|
  {
    if gs != [] {
      var init, last := gs[..|gs| - 1], gs[|gs| - 1];
      FlattenDisjoint(init, g);
      var a := Flatten(init);
      assert NamesDisjoint(last, g);
      forall i, j | 0 <= i < |a + last| && 0 <= j < |g| ensures (a + last)[i].0 != g[j].0 {
        if i >= |a| {
          assert (a + last)[i] == last[i - |a|];
        }
      }
    }
  }

  /** Groups whose names are distinct and pairwise disjoint flatten to a table with distinct names. */
  lemma {:induction false} FlattenDistinct(gs: seq<seq<(string, int)>>)
    requires forall k :: 0 <= k < |gs| ==> NamesDistinct(gs[k])
    requires forall k, l :: 0 <= k < l < |gs| ==> NamesDisjoint(gs[k], gs[l])
    ensures NamesDistinct(Flatten(gs))
    decreases |gs|
  {
    if gs != [] {
      var init, last := gs[..|gs| - 1], gs[|gs| - 1];
      FlattenDistinct(init);
      FlattenDisjoint(init, last);
      var a := Flatten(init);
      assert NamesDistinct(last);
      forall i, j | 0 <= i < j < |a + last| ensures (a + last)[i].0 != (a + last)[j].0 {
        if i >= |a| {
          assert (a + last)[i] == last[i - |a|] && (a + last)[j] == last[j - |a|];
        } else if j >= |a| {
          assert (a + last)[j] == last[j - |a|];
        }
      }
    }
  }

  lemma {:induction false} FlattenWellFormed(gs: seq<seq<(string, int)>>)
    requires forall k :: 0 <= k < |gs| ==> WellFormedNames(gs[k])
    ensures WellFormedNames(Flatten(gs))
    decreases |gs|
  {
    if gs != [] {
      var init, last := gs[..|gs| - 1], gs[|gs| - 1];
      FlattenWellFormed(init);
      var a := Flatten(init);
      assert WellFormedNames(last);
      forall i, j | 0 <= i < |a + last| && 0 <= j < |(a + last)[i].0| ensures IsNameChar((a + last)[i].0[j]) {
        if i >= |a| {
          assert (a + last)[i] == last[i - |a|];
        }
      }
    }
  }

  lemma FirstSixGroups()
    ensures Flatten(Groups[..6]) == TopRow + HomeRow + BottomRow + Arrows + NumberRow + ModifierBlock
  {
    FlattenSnoc(Groups, 0);
    FlattenSnoc(Groups, 1);
    FlattenSnoc(Groups, 2);
    FlattenSnoc(Groups, 3);
    FlattenSnoc(Groups, 4);
    FlattenSnoc(Groups, 5);
    assert Groups[..0] == [];
  }

  lemma FirstTenGroups()
    ensures Flatten(Groups[..10]) == Flatten(Groups[..6]) + PunctuationBlock + FunctionKeys + NumpadDigits + NumpadOperators
  {
    FlattenSnoc(Groups, 6);
    FlattenSnoc(Groups, 7);
    FlattenSnoc(Groups, 8);
    FlattenSnoc(Groups, 9);
  }

  /** The keyboard entries are the first ten groups. */
  lemma KeyboardGroupsPrefix()
    ensures Entries == Flatten(Groups[..10]) + MouseButtons + MouseWheel
  {
    FirstSixGroups();
    FirstTenGroups();
  }

  /** The table is the concatenation of its groups. */
  lemma EntriesAreGroups()
    ensures Entries == Flatten(Groups)
  {
    KeyboardGroupsPrefix();
    FlattenSnoc(Groups, 10);
    FlattenSnoc(Groups, 11);
    assert Groups[..12] == Groups;
  }

  /** The names of TopRow are distinct. */
  lemma TopRowApart()
    ensures forall i, j :: 0 <= i < j < |TopRow| ==> TopRow[i].0 != TopRow[j].0
  {
  }

  /** The names of HomeRow are distinct and differ from those of every earlier group. */
  lemma HomeRowApart()
    ensures forall i, j :: 0 <= i < j < |HomeRow| ==> HomeRow[i].0 != HomeRow[j].0
    ensures forall i, j :: 0 <= i < |TopRow| && 0 <= j < |HomeRow| ==> TopRow[i].0 != HomeRow[j].0
  {
  }

  /** The names of BottomRow are distinct and differ from those of every earlier group. */
  lemma BottomRowApart()
    ensures forall i, j :: 0 <= i < j < |BottomRow| ==> BottomRow[i].0 != BottomRow[j].0
    ensures forall i, j :: 0 <= i < |TopRow| && 0 <= j < |BottomRow| ==> TopRow[i].0 != BottomRow[j].0
    ensures forall i, j :: 0 <= i < |HomeRow| && 0 <= j < |BottomRow| ==> HomeRow[i].0 != BottomRow[j].0
  {
  }

  /** The names of Arrows are distinct and differ from those of every earlier group. */
  lemma ArrowsApart()
    ensures forall i, j :: 0 <= i < j < |Arrows| ==> Arrows[i].0 != Arrows[j].0
    ensures forall i, j :: 0 <= i < |TopRow| && 0 <= j < |Arrows| ==> TopRow[i].0 != Arrows[j].0
    ensures forall i, j :: 0 <= i < |HomeRow| && 0 <= j < |Arrows| ==> HomeRow[i].0 != Arrows[j].0
    ensures forall i, j :: 0 <= i < |BottomRow| && 0 <= j < |Arrows| ==> BottomRow[i].0 != Arrows[j].0
  {
  }

  /** The names of NumberRow are distinct and differ from those of every earlier group. */
  lemma NumberRowApart()
    ensures forall i, j :: 0 <= i < j < |NumberRow| ==> NumberRow[i].0 != NumberRow[j].0
    ensures forall i, j :: 0 <= i < |TopRow| && 0 <= j < |NumberRow| ==> TopRow[i].0 != NumberRow[j].0
    ensures forall i, j :: 0 <= i < |HomeRow| && 0 <= j < |NumberRow| ==> HomeRow[i].0 != NumberRow[j].0
    ensures forall i, j :: 0 <= i < |BottomRow| && 0 <= j < |NumberRow| ==> BottomRow[i].0 != NumberRow[j].0
    ensures forall i, j :: 0 <= i < |Arrows| && 0 <= j < |NumberRow| ==> Arrows[i].0 != NumberRow[j].0
  {
  }

  /** The names of ModifierBlock are distinct and differ from those of every earlier group. */
  lemma ModifierBlockApart()
    ensures forall i, j :: 0 <= i < j < |ModifierBlock| ==> ModifierBlock[i].0 != ModifierBlock[j].0
    ensures forall i, j :: 0 <= i < |TopRow| && 0 <= j < |ModifierBlock| ==> TopRow[i].0 != ModifierBlock[j].0
    ensures forall i, j :: 0 <= i < |HomeRow| && 0 <= j < |ModifierBlock| ==> HomeRow[i].0 != ModifierBlock[j].0
    ensures forall i, j :: 0 <= i < |BottomRow| && 0 <= j < |ModifierBlock| ==> BottomRow[i].0 != ModifierBlock[j].0
    ensures forall i, j :: 0 <= i < |Arrows| && 0 <= j < |ModifierBlock| ==> Arrows[i].0 != ModifierBlock[j].0
    ensures forall i, j :: 0 <= i < |NumberRow| && 0 <= j < |ModifierBlock| ==> NumberRow[i].0 != ModifierBlock[j].0
  {
  }

  /** The names of PunctuationBlock are distinct and differ from those of every earlier group. */
  lemma PunctuationBlockApart()
    ensures forall i, j :: 0 <= i < j < |PunctuationBlock| ==> PunctuationBlock[i].0 != PunctuationBlock[j].0
    ensures forall i, j :: 0 <= i < |TopRow| && 0 <= j < |PunctuationBlock| ==> TopRow[i].0 != PunctuationBlock[j].0
    ensures forall i, j :: 0 <= i < |HomeRow| && 0 <= j < |PunctuationBlock| ==> HomeRow[i].0 != PunctuationBlock[j].0
    ensures forall i, j :: 0 <= i < |BottomRow| && 0 <= j < |PunctuationBlock| ==> BottomRow[i].0 != PunctuationBlock[j].0
    ensures forall i, j :: 0 <= i < |Arrows| && 0 <= j < |PunctuationBlock| ==> Arrows[i].0 != PunctuationBlock[j].0
    ensures forall i, j :: 0 <= i < |NumberRow| && 0 <= j < |PunctuationBlock| ==> NumberRow[i].0 != PunctuationBlock[j].0
    ensures forall i, j :: 0 <= i < |ModifierBlock| && 0 <= j < |PunctuationBlock| ==> ModifierBlock[i].0 != PunctuationBlock[j].0
  {
  }

  /** The names of FunctionKeys are distinct and differ from those of every earlier group. */
  lemma FunctionKeysApart()
    ensures forall i, j :: 0 <= i < j < |FunctionKeys| ==> FunctionKeys[i].0 != FunctionKeys[j].0
    ensures forall i, j :: 0 <= i < |TopRow| && 0 <= j < |FunctionKeys| ==> TopRow[i].0 != FunctionKeys[j].0
    ensures forall i, j :: 0 <= i < |HomeRow| && 0 <= j < |FunctionKeys| ==> HomeRow[i].0 != FunctionKeys[j].0
    ensures forall i, j :: 0 <= i < |BottomRow| && 0 <= j < |FunctionKeys| ==> BottomRow[i].0 != FunctionKeys[j].0
    ensures forall i, j :: 0 <= i < |Arrows| && 0 <= j < |FunctionKeys| ==> Arrows[i].0 != FunctionKeys[j].0
    ensures forall i, j :: 0 <= i < |NumberRow| && 0 <= j < |FunctionKeys| ==> NumberRow[i].0 != FunctionKeys[j].0
    ensures forall i, j :: 0 <= i < |ModifierBlock| && 0 <= j < |FunctionKeys| ==> ModifierBlock[i].0 != FunctionKeys[j].0
    ensures forall i, j :: 0 <= i < |PunctuationBlock| && 0 <= j < |FunctionKeys| ==> PunctuationBlock[i].0 != FunctionKeys[j].0
  {
  }

  /** The names of NumpadDigits are distinct and differ from those of every earlier group. */
  lemma NumpadDigitsApart()
    ensures forall i, j :: 0 <= i < j < |NumpadDigits| ==> NumpadDigits[i].0 != NumpadDigits[j].0
    ensures forall i, j :: 0 <= i < |TopRow| && 0 <= j < |NumpadDigits| ==> TopRow[i].0 != NumpadDigits[j].0
    ensures forall i, j :: 0 <= i < |HomeRow| && 0 <= j < |NumpadDigits| ==> HomeRow[i].0 != NumpadDigits[j].0
    ensures forall i, j :: 0 <= i < |BottomRow| && 0 <= j < |NumpadDigits| ==> BottomRow[i].0 != NumpadDigits[j].0
    ensures forall i, j :: 0 <= i < |Arrows| && 0 <= j < |NumpadDigits| ==> Arrows[i].0 != NumpadDigits[j].0
    ensures forall i, j :: 0 <= i < |NumberRow| && 0 <= j < |NumpadDigits| ==> NumberRow[i].0 != NumpadDigits[j].0
    ensures forall i, j :: 0 <= i < |ModifierBlock| && 0 <= j < |NumpadDigits| ==> ModifierBlock[i].0 != NumpadDigits[j].0
    ensures forall i, j :: 0 <= i < |PunctuationBlock| && 0 <= j < |NumpadDigits| ==> PunctuationBlock[i].0 != NumpadDigits[j].0
    ensures forall i, j :: 0 <= i < |FunctionKeys| && 0 <= j < |NumpadDigits| ==> FunctionKeys[i].0 != NumpadDigits[j].0
  {
  }

  /** The names of NumpadOperators are distinct and differ from those of every earlier group. */
  lemma NumpadOperatorsApart()
    ensures forall i, j :: 0 <= i < j < |NumpadOperators| ==> NumpadOperators[i].0 != NumpadOperators[j].0
    ensures forall i, j :: 0 <= i < |TopRow| && 0 <= j < |NumpadOperators| ==> TopRow[i].0 != NumpadOperators[j].0
    ensures forall i, j :: 0 <= i < |HomeRow| && 0 <= j < |NumpadOperators| ==> HomeRow[i].0 != NumpadOperators[j].0
    ensures forall i, j :: 0 <= i < |BottomRow| && 0 <= j < |NumpadOperators| ==> BottomRow[i].0 != NumpadOperators[j].0
    ensures forall i, j :: 0 <= i < |Arrows| && 0 <= j < |NumpadOperators| ==> Arrows[i].0 != NumpadOperators[j].0
    ensures forall i, j :: 0 <= i < |NumberRow| && 0 <= j < |NumpadOperators| ==> NumberRow[i].0 != NumpadOperators[j].0
    ensures forall i, j :: 0 <= i < |ModifierBlock| && 0 <= j < |NumpadOperators| ==> ModifierBlock[i].0 != NumpadOperators[j].0
    ensures forall i, j :: 0 <= i < |PunctuationBlock| && 0 <= j < |NumpadOperators| ==> PunctuationBlock[i].0 != NumpadOperators[j].0
    ensures forall i, j :: 0 <= i < |FunctionKeys| && 0 <= j < |NumpadOperators| ==> FunctionKeys[i].0 != NumpadOperators[j].0
    ensures forall i, j :: 0 <= i < |NumpadDigits| && 0 <= j < |NumpadOperators| ==> NumpadDigits[i].0 != NumpadOperators[j].0
  {
  }

  /** The names of MouseButtons are distinct and differ from those of every earlier group. */
  lemma MouseButtonsApart()
    ensures forall i, j :: 0 <= i < j < |MouseButtons| ==> MouseButtons[i].0 != MouseButtons[j].0
    ensures forall i, j :: 0 <= i < |TopRow| && 0 <= j < |MouseButtons| ==> TopRow[i].0 != MouseButtons[j].0
    ensures forall i, j :: 0 <= i < |HomeRow| && 0 <= j < |MouseButtons| ==> HomeRow[i].0 != MouseButtons[j].0
    ensures forall i, j :: 0 <= i < |BottomRow| && 0 <= j < |MouseButtons| ==> BottomRow[i].0 != MouseButtons[j].0
    ensures forall i, j :: 0 <= i < |Arrows| && 0 <= j < |MouseButtons| ==> Arrows[i].0 != MouseButtons[j].0
    ensures forall i, j :: 0 <= i < |NumberRow| && 0 <= j < |MouseButtons| ==> NumberRow[i].0 != MouseButtons[j].0
    ensures forall i, j :: 0 <= i < |ModifierBlock| && 0 <= j < |MouseButtons| ==> ModifierBlock[i].0 != MouseButtons[j].0
    ensures forall i, j :: 0 <= i < |PunctuationBlock| && 0 <= j < |MouseButtons| ==> PunctuationBlock[i].0 != MouseButtons[j].0
    ensures forall i, j :: 0 <= i < |FunctionKeys| && 0 <= j < |MouseButtons| ==> FunctionKeys[i].0 != MouseButtons[j].0
    ensures forall i, j :: 0 <= i < |NumpadDigits| && 0 <= j < |MouseButtons| ==> NumpadDigits[i].0 != MouseButtons[j].0
    ensures forall i, j :: 0 <= i < |NumpadOperators| && 0 <= j < |MouseButtons| ==> NumpadOperators[i].0 != MouseButtons[j].0
  {
  }

  /** The names of MouseWheel are distinct and differ from those of every earlier group. */
  lemma MouseWheelApart()
    ensures forall i, j :: 0 <= i < j < |MouseWheel| ==> MouseWheel[i].0 != MouseWheel[j].0
    ensures forall i, j :: 0 <= i < |TopRow| && 0 <= j < |MouseWheel| ==> TopRow[i].0 != MouseWheel[j].0
    ensures forall i, j :: 0 <= i < |HomeRow| && 0 <= j < |MouseWheel| ==> HomeRow[i].0 != MouseWheel[j].0
    ensures forall i, j :: 0 <= i < |BottomRow| && 0 <= j < |MouseWheel| ==> BottomRow[i].0 != MouseWheel[j].0
    ensures forall i, j :: 0 <= i < |Arrows| && 0 <= j < |MouseWheel| ==> Arrows[i].0 != MouseWheel[j].0
    ensures forall i, j :: 0 <= i < |NumberRow| && 0 <= j < |MouseWheel| ==> NumberRow[i].0 != MouseWheel[j].0
    ensures forall i, j :: 0 <= i < |ModifierBlock| && 0 <= j < |MouseWheel| ==> ModifierBlock[i].0 != MouseWheel[j].0
    ensures forall i, j :: 0 <= i < |PunctuationBlock| && 0 <= j < |MouseWheel| ==> PunctuationBlock[i].0 != MouseWheel[j].0
    ensures forall i, j :: 0 <= i < |FunctionKeys| && 0 <= j < |MouseWheel| ==> FunctionKeys[i].0 != MouseWheel[j].0
    ensures forall i, j :: 0 <= i < |NumpadDigits| && 0 <= j < |MouseWheel| ==> NumpadDigits[i].0 != MouseWheel[j].0
    ensures forall i, j :: 0 <= i < |NumpadOperators| && 0 <= j < |MouseWheel| ==> NumpadOperators[i].0 != MouseWheel[j].0
    ensures forall i, j :: 0 <= i < |MouseButtons| && 0 <= j < |MouseWheel| ==> MouseButtons[i].0 != MouseWheel[j].0
  {
  }

  lemma LetterNamesSpelled()
    ensures forall i, j :: 0 <= i < |TopRow| && 0 <= j < |TopRow[i].0| ==> IsNameChar(TopRow[i].0[j])
    ensures forall i, j :: 0 <= i < |HomeRow| && 0 <= j < |HomeRow[i].0| ==> IsNameChar(HomeRow[i].0[j])
    ensures forall i, j :: 0 <= i < |BottomRow| && 0 <= j < |BottomRow[i].0| ==> IsNameChar(BottomRow[i].0[j])
    ensures forall i, j :: 0 <= i < |Arrows| && 0 <= j < |Arrows[i].0| ==> IsNameChar(Arrows[i].0[j])
  {
  }

  lemma MainNamesSpelled()
    ensures forall i, j :: 0 <= i < |NumberRow| && 0 <= j < |NumberRow[i].0| ==> IsNameChar(NumberRow[i].0[j])
    ensures forall i, j :: 0 <= i < |ModifierBlock| && 0 <= j < |ModifierBlock[i].0| ==> IsNameChar(ModifierBlock[i].0[j])
    ensures forall i, j :: 0 <= i < |PunctuationBlock| && 0 <= j < |PunctuationBlock[i].0| ==> IsNameChar(PunctuationBlock[i].0[j])
    ensures forall i, j :: 0 <= i < |FunctionKeys| && 0 <= j < |FunctionKeys[i].0| ==> IsNameChar(FunctionKeys[i].0[j])
  {
  }

  lemma KeypadAndMouseNamesSpelled()
    ensures forall i, j :: 0 <= i < |NumpadDigits| && 0 <= j < |NumpadDigits[i].0| ==> IsNameChar(NumpadDigits[i].0[j])
    ensures forall i, j :: 0 <= i < |NumpadOperators| && 0 <= j < |NumpadOperators[i].0| ==> IsNameChar(NumpadOperators[i].0[j])
    ensures forall i, j :: 0 <= i < |MouseButtons| && 0 <= j < |MouseButtons[i].0| ==> IsNameChar(MouseButtons[i].0[j])
    ensures forall i, j :: 0 <= i < |MouseWheel| && 0 <= j < |MouseWheel[i].0| ==> IsNameChar(MouseWheel[i].0[j])
  {
  }

  /** No name occurs twice in KEY_CODES, as in any dictionary. */
  lemma TableNamesDistinct()
    ensures NamesDistinct(Entries)
  {
    TopRowApart();
    HomeRowApart();
    BottomRowApart();
    ArrowsApart();
    NumberRowApart();
    ModifierBlockApart();
    PunctuationBlockApart();
    FunctionKeysApart();
    NumpadDigitsApart();
    NumpadOperatorsApart();
    MouseButtonsApart();
    MouseWheelApart();
    forall k, l | 0 <= k < l < |Groups| ensures NamesDisjoint(Groups[k], Groups[l]) {
    }
    EntriesAreGroups();
    FlattenDistinct(Groups);
  }

  /** Every name in KEY_CODES is spelled with upper-case letters, digits and underscores. */
  lemma TableNamesWellFormed()
    ensures WellFormedNames(Entries)
  {
    LetterNamesSpelled();
    MainNamesSpelled();
    KeypadAndMouseNamesSpelled();
    EntriesAreGroups();
    FlattenWellFormed(Groups);
  }

  /** Every scancode of the list lies in [lo, hi). */
  predicate CodesWithin(es: seq<(string, int)>, lo: int, hi: int) {
    forall i :: 0 <= i < |es| ==> lo <= es[i].1 < hi
  }

  lemma {:induction false} FlattenCodesWithin(gs: seq<seq<(string, int)>>, lo: int, hi: int)
    requires forall k :: 0 <= k < |gs| ==> CodesWithin(gs[k], lo, hi)
    ensures CodesWithin(Flatten(gs), lo, hi)
    decreases |gs|
  {
    if gs != [] {
      var init, last := gs[..|gs| - 1], gs[|gs| - 1];
      FlattenCodesWithin(init, lo, hi);
      var a := Flatten(init);
      assert CodesWithin(last, lo, hi);
      forall i | 0 <= i < |a + last| ensures lo <= (a + last)[i].1 < hi {
        if i >= |a| {
          assert (a + last)[i] == last[i - |a|];
        }
      }
    }
  }

  lemma KeyboardGroupCodes()
    ensures forall i :: 0 <= i < |TopRow| ==> 0 < TopRow[i].1 < 0x100
    ensures forall i :: 0 <= i < |HomeRow| ==> 0 < HomeRow[i].1 < 0x100
    ensures forall i :: 0 <= i < |BottomRow| ==> 0 < BottomRow[i].1 < 0x100
    ensures forall i :: 0 <= i < |Arrows| ==> 0 < Arrows[i].1 < 0x100
    ensures forall i :: 0 <= i < |NumberRow| ==> 0 < NumberRow[i].1 < 0x100
    ensures forall i :: 0 <= i < |ModifierBlock| ==> 0 < ModifierBlock[i].1 < 0x100
    ensures forall i :: 0 <= i < |PunctuationBlock| ==> 0 < PunctuationBlock[i].1 < 0x100
    ensures forall i :: 0 <= i < |FunctionKeys| ==> 0 < FunctionKeys[i].1 < 0x100
    ensures forall i :: 0 <= i < |NumpadDigits| ==> 0 < NumpadDigits[i].1 < 0x100
    ensures forall i :: 0 <= i < |NumpadOperators| ==> 0 < NumpadOperators[i].1 < 0x100
  {
  }

  /** Every keyboard entry carries a one-byte scancode. */
  lemma KeyboardCodesBelow0x100()
    ensures |Entries| == 101
    ensures forall i :: 0 <= i < KeyboardEntries ==> 0 < Entries[i].1 < 0x100
  {
    KeyboardGroupCodes();
    forall k | 0 <= k < 10 ensures CodesWithin(Groups[..10][k], 1, 0x100) {
    }
    FlattenCodesWithin(Groups[..10], 1, 0x100);
    KeyboardGroupsPrefix();
    var keyboard := Flatten(Groups[..10]);
    assert |keyboard| == KeyboardEntries;
    forall i | 0 <= i < KeyboardEntries ensures 0 < Entries[i].1 < 0x100 {
      assert Entries[i] == keyboard[i];
    }
  }

  /** The mouse entries follow the keyboard entries with the consecutive codes 0x100 to 0x109. */
  lemma MouseCodesConsecutive()
    ensures |Entries| == 101
    ensures forall i :: KeyboardEntries <= i < |Entries| ==> Entries[i].1 == 0x100 + (i - KeyboardEntries)
  {
  }

  lemma NamedEntries()
    ensures Entries[56] == ("SPACE", 0x39)
    ensures Entries[57] == ("DELETE", 0x53)
    ensures Entries[75] == ("F12", 0x58)
    ensures Entries[88] == ("NUMPAD_PERIOD", 0x53)
  {
  }
}

/**
 * The string operations the controller relies on: ASCII case mapping
 * (Python's str.upper / str.lower restricted to ASCII) and joining names with
 * ", " together with the inverse split.
 */
module Text {

  /** str.upper on one character, ASCII only. */
  function UpperChar(c: char): char {
    if 'a' <= c <= 'z' then (c as int - 32) as char else c
  }

  /** str.lower on one character, ASCII only. */
  function LowerChar(c: char): char {
    if 'A' <= c <= 'Z' then (c as int + 32) as char else c
  }

  predicate IsLowerAscii(c: char) {
    'a' <= c <= 'z'
  }

  function ToUpper(s: string): (r: string)
    ensures |r| == |s|
    ensures forall i :: 0 <= i < |r| ==> !IsLowerAscii(r[i])
    ensures forall i :: 0 <= i < |s| ==>
      if IsLowerAscii(s[i]) then LowerChar(r[i]) == s[i] else r[i] == s[i]
  {
    seq(|s|, i requires 0 <= i < |s| => UpperChar(s[i]))
  }

  function ToLower(s: string): (r: string)
    ensures |r| == |s|
  {
    seq(|s|, i requires 0 <= i < |s| => LowerChar(s[i]))
  }

  /** Upper-casing twice is upper-casing once. */
  lemma ToUpperIdempotent(s: string)
    ensures ToUpper(ToUpper(s)) == ToUpper(s)
  {
    forall i | 0 <= i < |s| ensures ToUpper(ToUpper(s))[i] == ToUpper(s)[i] {
      var c := s[i];
      assert ToUpper(s)[i] == UpperChar(c);
    }
  }

  /** Upper-casing forgets a previous lower-casing. */
  lemma ToUpperOfLower(s: string)
    ensures ToUpper(ToLower(s)) == ToUpper(s)
  {
    forall i | 0 <= i < |s| ensures ToUpper(ToLower(s))[i] == ToUpper(s)[i] {
      var c := s[i];
      assert ToLower(s)[i] == LowerChar(c);
    }
  }

  /** A string with no lower-case ASCII letter is its own upper-case form. */
  lemma ToUpperFixes(s: string)
    requires forall i :: 0 <= i < |s| ==> !IsLowerAscii(s[i])
    ensures ToUpper(s) == s
  {
    forall i | 0 <= i < |s| ensures ToUpper(s)[i] == s[i] {
      assert UpperChar(s[i]) == s[i];
    }
  }

  /** The separator of Python's ', '.join(...). */
  const Separator: string := ", "

  /** The combined length of `names`. */
  function TotalLength(names: seq<string>): nat {
    if names == [] then 0 else |names[0]| + TotalLength(names[1..])
  }

  /** ', '.join(names): starts with the first name, and adds one separator between each two names. */
  function Join(names: seq<string>): (r: string)
    ensures |names| == 0 ==> r == ""
    ensures |names| >= 1 ==> names[0] <= r && |r| == TotalLength(names) + |Separator| * (|names| - 1)
  {
    if |names| == 0 then ""
    else if |names| == 1 then names[0]
    else names[0] + Separator + Join(names[1..])
  }

  /** s.split(', '): the pieces between non-overlapping separators, left to right. */
  function Split(s: string): (parts: seq<string>)
    ensures |parts| >= 1
    decreases |s|
  {
    if |s| >= 2 && s[0] == ',' && s[1] == ' ' then [""] + Split(s[2..])
    else if s == [] then [""]
    else
      var rest := Split(s[1..]);
      [[s[0]] + rest[0]] + rest[1..]
  }

  /** Splitting a string that starts with a comma-free piece keeps that piece whole. */
  lemma {:induction false} SplitAfterPiece(x: string, rest: string)
    requires ',' !in x
    ensures Split(x + rest) == [x + Split(rest)[0]] + Split(rest)[1..]
    decreases |x|
  {
    if x == [] {
      assert x + rest == rest;
      var parts := Split(rest);
      assert x + parts[0] == parts[0];
      assert [parts[0]] + parts[1..] == parts;
    } else {
      assert x[0] != ',';
      assert (x + rest)[1..] == x[1..] + rest;
      SplitAfterPiece(x[1..], rest);
      assert [x[0]] + (x[1..] + Split(rest)[0]) == x + Split(rest)[0];
    }
  }

  /** Splitting a joined list of comma-free names gives the list back. */
  lemma {:induction false} SplitJoin(names: seq<string>)
    requires |names| >= 1
    requires forall i :: 0 <= i < |names| ==> ',' !in names[i]
    ensures Split(Join(names)) == names
    decreases |names|
  {
    if |names| == 1 {
      SplitAfterPiece(names[0], "");
      assert names[0] + "" == names[0];
    } else {
      var tail := Join(names[1..]);
      SplitJoin(names[1..]);
      assert Join(names) == names[0] + (Separator + tail);
      SplitAfterPiece(names[0], Separator + tail);
      assert (Separator + tail)[2..] == tail;
      assert Split(Separator + tail) == [""] + names[1..];
      assert names[0] + "" == names[0];
    }
  }
}

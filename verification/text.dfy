/** Character case helpers and `capitalize`, which turns a process name into
    the display form used in notifications and per-workload log segments.
    Case mapping is ASCII only: characters outside 'A'..'Z' and 'a'..'z' are
    left as they are. */
module Text {

  predicate IsAsciiUpper(c: char)
  {
    'A' <= c <= 'Z'
  }

  predicate IsAsciiLower(c: char)
  {
    'a' <= c <= 'z'
  }

  /** `char::to_ascii_lowercase`: maps 'A'..'Z' to 'a'..'z', keeps the rest. */
  function ToAsciiLowercase(c: char): (r: char)
    ensures !IsAsciiUpper(r)
    ensures IsAsciiUpper(c) ==> IsAsciiLower(r) && r as int - c as int == 32
    ensures !IsAsciiUpper(c) ==> r == c
  {
    if IsAsciiUpper(c) then (c as int + 32) as char else c
  }

  /** `char::to_uppercase` restricted to ASCII: maps 'a'..'z' to 'A'..'Z',
      keeps the rest. */
  function ToUppercase(c: char): (r: char)
    ensures !IsAsciiLower(r)
    ensures IsAsciiLower(c) ==> IsAsciiUpper(r) && c as int - r as int == 32
    ensures !IsAsciiLower(c) ==> r == c
  {
    if IsAsciiLower(c) then (c as int - 32) as char else c
  }

  /** The mapped tail `chars.map(|c| c.to_ascii_lowercase())`. */
  function LowercaseAll(s: string): (r: string)
    ensures |r| == |s|
    ensures forall i :: 0 <= i < |s| ==> r[i] == ToAsciiLowercase(s[i])
  {
    if s == [] then [] else [ToAsciiLowercase(s[0])] + LowercaseAll(s[1..])
  }

  /** `capitalize`: the empty name stays empty; otherwise the first character
      is uppercased and every later one ASCII-lowercased, position by
      position. */
  function Capitalize(s: string): (r: string)
    ensures |r| == |s|
    ensures s == [] ==> r == []
    ensures s != [] ==> r[0] == ToUppercase(s[0])
    ensures forall i :: 1 <= i < |s| ==> r[i] == ToAsciiLowercase(s[i])
  {
    if s == [] then [] else [ToUppercase(s[0])] + LowercaseAll(s[1..])
  }

  /** A capitalized name has no lowercase letter in front and no uppercase
      letter after it. */
  lemma CapitalizeShape(s: string)
    requires s != []
    ensures !IsAsciiLower(Capitalize(s)[0])
    ensures forall i :: 1 <= i < |s| ==> !IsAsciiUpper(Capitalize(s)[i])
  {
  }

  /** Capitalizing twice is capitalizing once. */
  lemma CapitalizeIdempotent(s: string)
    ensures Capitalize(Capitalize(s)) == Capitalize(s)
  {
    var c := Capitalize(s);
    var cc := Capitalize(c);
    assert |cc| == |c|;
    forall i | 0 <= i < |c|
      ensures cc[i] == c[i]
    {
      if i == 0 {
        assert cc[0] == ToUppercase(ToUppercase(s[0]));
      } else {
        assert cc[i] == ToAsciiLowercase(ToAsciiLowercase(s[i]));
      }
    }
  }

  /** Capitalization changes letters only: a character that is not a letter,
      such as a line break, occurs in the result exactly where it occurs in
      the input. */
  lemma CapitalizeKeepsNonLetters(s: string, c: char)
    requires !IsAsciiUpper(c) && !IsAsciiLower(c)
    ensures forall i :: 0 <= i < |s| ==> (Capitalize(s)[i] == c <==> s[i] == c)
  {
  }
}

/** The optional value used for lookups that may fail. */
module Wrappers {
  datatype Option<+T> = None | Some(value: T)
}

/**
 * The fixed chromatic note table of the piano, the lookup of a western note
 * name in it, the Greek display label of a note, and the note identifier
 * (western name followed by the octave number) that tags every key.
 */
module Notes {
  import opened Wrappers

  /** One row of the note table: one of the 12 chromatic notes of an octave. */
  datatype NoteInfo = NoteInfo(westernName: string, greekName: string, a4Offset: int, isBlack: bool)

  /** The 12 notes from C to B; `a4Offset` is the distance in semitones from A in the same octave. */
  const NoteTable: seq<NoteInfo> := [
    NoteInfo("C", "Νη", -9, false),
    NoteInfo("C#", "Νη+", -8, true),
    NoteInfo("D", "Πα", -7, false),
    NoteInfo("D#", "Βου-", -6, true),
    NoteInfo("E", "Βου", -5, false),
    NoteInfo("F", "Γα", -4, false),
    NoteInfo("F#", "Γα+", -3, true),
    NoteInfo("G", "Δι", -2, false),
    NoteInfo("G#", "Κε-", -1, true),
    NoteInfo("A", "Κε", 0, false),
    NoteInfo("A#", "Ζω-", 1, true),
    NoteInfo("B", "Ζω", 2, false)
  ]

  /** The suffix (U+1FBD, Greek koronis) that marks a note of the upper register. */
  const Prime: string := "\U{1FBD}"

  /** `name` is the western name of some row of the table. */
  predicate IsNoteName(name: string) {
    exists i | 0 <= i < |NoteTable| :: NoteTable[i].westernName == name
  }

  /**
   * The shape of the table: 12 rows, offsets rising by one semitone from -9,
   * the raised keys are exactly the names with a sharp, and every western name
   * is one or two characters long, a letter followed by an optional '#'.
   */
  lemma TableShape()
    ensures |NoteTable| == 12
    ensures forall i | 0 <= i < 12 :: NoteTable[i].a4Offset == i - 9
    ensures forall i | 0 <= i < 12 :: NoteTable[i].isBlack <==> |NoteTable[i].westernName| == 2
    ensures forall i | 0 <= i < 12 ::
      var w := NoteTable[i].westernName;
      1 <= |w| <= 2 && 'A' <= w[0] <= 'G' && (|w| == 2 ==> w[1] == '#')
  {
  }

  /** No two rows of the table share a western name. */
  lemma NamesDistinct()
    ensures forall i, j | 0 <= i < j < |NoteTable| :: NoteTable[i].westernName != NoteTable[j].westernName
  {
    forall i, j | 0 <= i < j < |NoteTable|
      ensures NoteTable[i].westernName != NoteTable[j].westernName
    {
      TableShape();
      var a, b := NoteTable[i].westernName, NoteTable[j].westernName;
      // The table lists each letter once, or twice as a natural and its sharp.
      assert a != b;
    }
  }

  /** The first row at or after `from` whose western name is `name`. */
  function FindFrom(name: string, from: nat): (r: Option<nat>)
    requires from <= |NoteTable|
    decreases |NoteTable| - from
    ensures r.Some? ==> from <= r.value < |NoteTable| && NoteTable[r.value].westernName == name
    ensures r.Some? ==> forall j | from <= j < r.value :: NoteTable[j].westernName != name
    ensures r.None? ==> forall j | from <= j < |NoteTable| :: NoteTable[j].westernName != name
  {
    if from == |NoteTable| then None
    else if NoteTable[from].westernName == name then Some(from)
    else FindFrom(name, from + 1)
  }

  /** The row of the table holding `name` (the table's `findIndex`, with None for -1). */
  function FindIndex(name: string): (r: Option<nat>)
    ensures r.Some? <==> IsNoteName(name)
    ensures r.Some? ==> r.value < 12 && NoteTable[r.value].westernName == name
  {
    FindFrom(name, 0)
  }

  /** The one row holding a given name: FindIndex answers with it. */
  lemma FindIndexExact(i: nat)
    requires i < |NoteTable|
    ensures FindIndex(NoteTable[i].westernName) == Some(i)
  {
    NamesDistinct();
  }

  /** Whether the Greek label of `westernName` in `octave` carries the prime suffix. */
  predicate Primed(westernName: string, octave: int) {
    octave >= 5 || (octave == 4 && (westernName == "B" || westernName == "A#"))
  }

  /**
   * The label shown on a key: an unknown name is returned unchanged, a known
   * one becomes its Greek name with the prime suffix chosen by octave.
   */
  function GreekNoteName(westernName: string, octave: int): (r: string)
    ensures !IsNoteName(westernName) ==> r == westernName
  {
    match FindIndex(westernName)
    case None => westernName
    case Some(i) =>
      var suffix :=
        if octave == 3 then ""
        else if octave == 4 then (if westernName == "B" || westernName == "A#" then Prime else "")
        else if octave >= 5 then Prime
        else "";
      NoteTable[i].greekName + suffix
  }

  /**
   * The label of table row `i` in `octave` is the row's Greek name, with the
   * prime suffix in octave 4 for B and A# and in every octave from 5 up.
   */
  lemma GreekNameOfRow(i: nat, octave: int)
    requires i < |NoteTable|
    ensures GreekNoteName(NoteTable[i].westernName, octave)
         == NoteTable[i].greekName + (if Primed(NoteTable[i].westernName, octave) then Prime else "")
  {
    FindIndexExact(i);
  }

  /** No Greek base name ends in the prime, so the label ends in it exactly when the note is primed. */
  lemma PrimeSuffixExactly(i: nat, octave: int)
    requires i < |NoteTable|
    ensures var r := GreekNoteName(NoteTable[i].westernName, octave);
      |r| > 0 && (r[|r| - 1] == '\U{1FBD}' <==> Primed(NoteTable[i].westernName, octave))
  {
    var g := NoteTable[i].greekName;
    assert |g| > 0 && g[|g| - 1] != '\U{1FBD}';
    GreekNameOfRow(i, octave);
  }

  /** Octaves 3 and below are never primed: the label is the bare Greek name. */
  lemma LowOctavesUnprimed(i: nat, octave: int)
    requires i < |NoteTable| && octave <= 3
    ensures GreekNoteName(NoteTable[i].westernName, octave) == NoteTable[i].greekName
  {
    GreekNameOfRow(i, octave);
  }

  // ----- note identifiers -----

  /** `c` is one of the decimal digits '0' to '9'. */
  predicate IsDigit(c: char) { '0' <= c <= '9' }

  /** The digit character for a value below 10. */
  function Digit(d: nat): (c: char)
    requires d < 10
    ensures IsDigit(c) && c as int - '0' as int == d
  {
    ('0' as int + d) as char
  }

  /** Every character of `s` is a decimal digit. */
  predicate AllDigits(s: string) {
    forall k | 0 <= k < |s| :: IsDigit(s[k])
  }

  /** The value of a string of decimal digits, most significant digit first. */
  function DecValue(s: string): nat
    requires AllDigits(s)
    decreases |s|
  {
    if s == [] then 0 else DecValue(s[..|s| - 1]) * 10 + (s[|s| - 1] as int - '0' as int)
  }

  /** A decimal numeral: at least one digit, and no leading zero unless it is "0" itself. */
  predicate IsNumeral(s: string) {
    |s| >= 1 && AllDigits(s) && (|s| > 1 ==> s[0] != '0')
  }

  /**
   * `s` is the decimal text of the integer `v`: its numeral, after a '-' when
   * `v` is negative (JavaScript writes this for integers below 10^21 in magnitude).
   */
  predicate IsIntText(s: string, v: int) {
    if v < 0 then |s| >= 2 && s[0] == '-' && IsNumeral(s[1..]) && DecValue(s[1..]) == -v
    else IsNumeral(s) && DecValue(s) == v
  }

  /** The decimal numeral of a natural number. */
  function NatText(n: nat): (r: string)
    decreases n
    ensures IsNumeral(r)
    ensures r[0] == '0' <==> n == 0
    ensures n < 10 <==> |r| == 1
  {
    if n < 10 then [Digit(n)] else NatText(n / 10) + [Digit(n % 10)]
  }

  /** The numeral NatText writes has the value `n`. */
  lemma {:induction false} NatTextValue(n: nat)
    ensures DecValue(NatText(n)) == n
    decreases n
  {
    if n >= 10 {
      var r := NatText(n);
      NatTextValue(n / 10);
      assert r[..|r| - 1] == NatText(n / 10);
    }
  }

  /** The octave as text: decimal, with '-' before a negative value, as a template literal writes an integer below 10^21 in magnitude. */
  function OctaveText(octave: int): (r: string)
    ensures |r| >= 1 && (IsDigit(r[0]) || r[0] == '-')
    ensures r[0] == '-' <==> octave < 0
  {
    if octave < 0 then "-" + NatText(-octave) else NatText(octave)
  }

  /** The octave's text is the decimal text of the octave number. */
  lemma OctaveTextValue(octave: int)
    ensures IsIntText(OctaveText(octave), octave)
  {
    if octave < 0 {
      NatTextValue(-octave);
      assert OctaveText(octave)[1..] == NatText(-octave);
    } else {
      NatTextValue(octave);
    }
  }

  /** The identifier of a key, its western name followed by its octave ("A#3"). */
  function NoteId(westernName: string, octave: int): string {
    westernName + OctaveText(octave)
  }

  /** An identifier reads as the western name followed by the octave in decimal. */
  lemma NoteIdSpells(westernName: string, octave: int)
    ensures var r := NoteId(westernName, octave);
      |r| > |westernName| && r[..|westernName|] == westernName && IsIntText(r[|westernName|..], octave)
  {
    var t := OctaveText(octave);
    OctaveTextValue(octave);
    assert (westernName + t)[..|westernName|] == westernName && (westernName + t)[|westernName|..] == t;
  }

  /** A text is the text of at most one integer. */
  lemma IntTextUnique(s: string, a: int, b: int)
    requires IsIntText(s, a) && IsIntText(s, b)
    ensures a == b
  {
  }

  /** Different octaves get different texts. */
  lemma OctaveTextInjective(a: int, b: int)
    requires OctaveText(a) == OctaveText(b)
    ensures a == b
  {
    OctaveTextValue(a);
    OctaveTextValue(b);
    IntTextUnique(OctaveText(a), a, b);
  }

  /**
   * Distinct (name, octave) pairs of the table get distinct identifiers: no
   * western name contains a digit or '-', so the join cannot be ambiguous.
   */
  lemma NoteIdInjective(n1: string, o1: int, n2: string, o2: int)
    requires IsNoteName(n1) && IsNoteName(n2)
    requires NoteId(n1, o1) == NoteId(n2, o2)
    ensures n1 == n2 && o1 == o2
  {
    TableShape();
    var id := NoteId(n1, o1);
    var t1, t2 := OctaveText(o1), OctaveText(o2);
    // The second character of the identifier is '#' exactly when the name is
    // two characters long: otherwise it starts the octave text, a digit or '-'.
    assert |id| >= 2;
    assert id[1] == (if |n1| == 2 then n1[1] else t1[0]);
    assert id[1] == (if |n2| == 2 then n2[1] else t2[0]);
    assert |n1| == |n2|;
    assert n1 == id[..|n1|] == n2;
    assert t1 == id[|n1|..] == t2;
    OctaveTextInjective(o1, o2);
  }
}

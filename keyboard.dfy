/**
 * The computer-keyboard front end: the table from keyboard characters to key
 * identifiers, the lookup of a key by identifier among the generated keys, and
 * the decisions of the keydown and keyup handlers.
 */
module Keyboard {
  import opened Wrappers
  import opened Notes
  import opened PianoKeys

  /** Keyboard characters to key identifiers, A3 on 'z' up to D5 on 'l'. */
  const KeyboardMap: map<string, string> := map[
    "c" := "B3",
    "x" := "A#3",
    "z" := "A3",
    "a" := "C4",
    "w" := "C#4",
    "s" := "D4",
    "e" := "D#4",
    "d" := "E4",
    "f" := "F4",
    "t" := "F#4",
    "g" := "G4",
    "y" := "G#4",
    "h" := "A4",
    "u" := "A#4",
    "j" := "B4",
    "k" := "C5",
    "o" := "C#5",
    "l" := "D5"
  ]

  /** Lower case of one character, for the ASCII letters. */
  function LowerChar(c: char): (r: char)
    ensures 'A' <= c <= 'Z' ==> 'a' <= r <= 'z' && r as int == c as int + 32
    ensures !('A' <= c <= 'Z') ==> r == c
  {
    if 'A' <= c <= 'Z' then (c as int + 32) as char else c
  }

  /** The key name in lower case, character by character. */
  function ToLower(s: string): (r: string)
    ensures |r| == |s| && forall i | 0 <= i < |s| :: r[i] == LowerChar(s[i])
  {
    seq(|s|, i requires 0 <= i < |s| => LowerChar(s[i]))
  }

  /** Lower-casing twice is lower-casing once. */
  lemma ToLowerIdempotent(s: string)
    ensures ToLower(ToLower(s)) == ToLower(s)
  {
    var l := ToLower(s);
    assert forall i | 0 <= i < |s| :: ToLower(l)[i] == LowerChar(l[i]) == l[i];
  }

  /** The capital of a lower-case ASCII letter. */
  function UpperChar(c: char): (r: char)
    requires 'a' <= c <= 'z'
    ensures 'A' <= r <= 'Z' && LowerChar(r) == c
  {
    (c as int - 32) as char
  }

  /**
   * The handlers ignore case: the capital of a one-letter key name selects the
   * same note on keydown and on keyup as the letter itself.
   */
  lemma CapitalSelectsSameKey(keys: seq<Key>, active: set<string>, key: string, repeat: bool)
    requires |key| == 1 && 'a' <= key[0] <= 'z'
    ensures KeyDownNote(keys, active, [UpperChar(key[0])], repeat) == KeyDownNote(keys, active, key, repeat)
    ensures KeyUpNote(keys, [UpperChar(key[0])]) == KeyUpNote(keys, key)
  {
    assert ToLower([UpperChar(key[0])]) == key == ToLower(key);
  }

  /** The first generated key carrying identifier `id`, as a selector query finds it. */
  function FindKey(keys: seq<Key>, id: string): (r: Option<nat>)
    decreases |keys|
    ensures r.Some? ==> r.value < |keys| && keys[r.value].Id() == id
    ensures r.Some? ==> forall j | 0 <= j < r.value :: keys[j].Id() != id
    ensures r.None? ==> forall j | 0 <= j < |keys| :: keys[j].Id() != id
  {
    if keys == [] then None
    else if keys[0].Id() == id then Some(0)
    else
      var rest := FindKey(keys[1..], id);
      assert forall j | 1 <= j < |keys| :: keys[j] == keys[1..][j - 1];
      if rest.None? then None else Some(rest.value + 1)
  }

  /**
   * The note the keydown handler plays: none for a repeat, for a character
   * outside the table, when no key carries the identifier, or when that key is
   * already marked active.
   */
  function KeyDownNote(keys: seq<Key>, active: set<string>, key: string, repeat: bool): (r: Option<string>)
    ensures repeat || ToLower(key) !in KeyboardMap ==> r == None
    ensures r.Some? ==> r.value == KeyboardMap[ToLower(key)] && r.value !in active
    ensures r.Some? ==> exists i | 0 <= i < |keys| :: keys[i].Id() == r.value
    ensures (&& !repeat && ToLower(key) in KeyboardMap && KeyboardMap[ToLower(key)] !in active
             && exists i | 0 <= i < |keys| :: keys[i].Id() == KeyboardMap[ToLower(key)]) ==> r.Some?
  {
    var lower := ToLower(key);
    if lower in KeyboardMap && !repeat then
      var noteName := KeyboardMap[lower];
      match FindKey(keys, noteName)
      case None => None
      case Some(i) => if keys[i].Id() !in active then Some(keys[i].Id()) else None
    else None
  }

  /** The note the keyup handler releases: that of a table character whose key exists. */
  function KeyUpNote(keys: seq<Key>, key: string): (r: Option<string>)
    ensures ToLower(key) !in KeyboardMap ==> r == None
    ensures r.Some? ==> r.value == KeyboardMap[ToLower(key)]
    ensures ToLower(key) in KeyboardMap ==>
      (r.Some? <==> exists i | 0 <= i < |keys| :: keys[i].Id() == KeyboardMap[ToLower(key)])
  {
    var lower := ToLower(key);
    if lower in KeyboardMap then
      match FindKey(keys, KeyboardMap[lower])
      case None => None
      case Some(i) => Some(keys[i].Id())
    else None
  }

  /** The identifiers of the A3 to D5 range, in order. */
  const BaseIds: seq<string> := [
    "A3", "A#3", "B3",
    "C4", "C#4", "D4", "D#4", "E4", "F4", "F#4", "G4", "G#4", "A4", "A#4", "B4",
    "C5", "C#5", "D5"
  ]

  /** Key `i` of the range starting at A3 (row 9, octave 3) is tagged BaseIds[i]. */
  lemma BaseKeyId(i: nat)
    requires i < 18
    ensures KeyAt(9, 3, i).Id() == BaseIds[i]
  {
  }

  /** The keys generated for A3 to D5 carry the identifiers A3, A#3, ..., D5 in order. */
  lemma BaseRangeIds()
    ensures |KeyRange("A", 3, "D", 5)| == |BaseIds|
    ensures forall i | 0 <= i < |BaseIds| :: KeyRange("A", 3, "D", 5)[i].Id() == BaseIds[i]
  {
    BaseRange();
    var keys := KeyRange("A", 3, "D", 5);
    assert FindIndex("A") == Some(9) by { FindIndexExact(9); }
    forall i | 0 <= i < |BaseIds|
      ensures keys[i].Id() == BaseIds[i]
    {
      KeyRangeAt("A", 3, "D", 5, i);
      BaseKeyId(i);
    }
  }

  /** The table's targets are exactly the identifiers of the A3 to D5 range. */
  lemma KeyboardTargetsAreBaseIds()
    ensures forall c | c in KeyboardMap :: KeyboardMap[c] in BaseIds
    ensures forall i | 0 <= i < |BaseIds| :: BaseIds[i] in KeyboardMap.Values
  {
    var chars := ["z", "x", "c", "a", "w", "s", "e", "d", "f", "t", "g", "y", "h", "u", "j", "k", "o", "l"];
    forall i | 0 <= i < |BaseIds|
      ensures BaseIds[i] in KeyboardMap.Values
    {
      assert chars[i] in KeyboardMap.Keys;
      assert KeyboardMap[chars[i]] == BaseIds[i];
    }
  }

  /**
   * Every character of the table reaches a key of the generated A3 to D5
   * range, and every key of that range is reached by some character.
   */
  lemma KeyboardCoversBaseRange()
    ensures forall c | c in KeyboardMap :: FindKey(KeyRange("A", 3, "D", 5), KeyboardMap[c]).Some?
    ensures forall i | 0 <= i < |KeyRange("A", 3, "D", 5)| :: KeyRange("A", 3, "D", 5)[i].Id() in KeyboardMap.Values
  {
    BaseRangeIds();
    KeyboardTargetsAreBaseIds();
    var keys := KeyRange("A", 3, "D", 5);
    forall c | c in KeyboardMap
      ensures FindKey(keys, KeyboardMap[c]).Some?
    {
      var i :| 0 <= i < |BaseIds| && BaseIds[i] == KeyboardMap[c];
      assert keys[i].Id() == KeyboardMap[c];
    }
    assert forall i | 0 <= i < |keys| :: keys[i].Id() == BaseIds[i];
  }

  /**
   * On the A3 to D5 keys, a keydown of a table character that is not a repeat
   * and whose key is not marked active always plays that character's key.
   */
  lemma KeyDownOnBaseRange(active: set<string>, key: string)
    requires ToLower(key) in KeyboardMap && KeyboardMap[ToLower(key)] !in active
    ensures KeyDownNote(KeyRange("A", 3, "D", 5), active, key, false) == Some(KeyboardMap[ToLower(key)])
  {
    KeyboardCoversBaseRange();
    var keys := KeyRange("A", 3, "D", 5);
    var i := FindKey(keys, KeyboardMap[ToLower(key)]).value;
    assert keys[i].Id() == KeyboardMap[ToLower(key)];
  }
}

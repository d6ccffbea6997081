/**
 * Generation of the row of piano keys between a start note and an end note,
 * both inclusive: the index walk over the note table that wraps every 12
 * steps and moves to the next octave on each wrap.
 */
module PianoKeys {
  import opened Wrappers
  import opened Notes

  /** A generated key: its note and octave, its distance in semitones from A4, and its colour. */
  datatype Key = Key(westernName: string, octave: int, semitones: int, isBlack: bool)
  {
    /** The identifier the key is tagged with ("C#4"). */
    function Id(): string {
      NoteId(westernName, octave)
    }

    /**
     * The text shown on the key: the Greek name of the key's row, primed in the
     * upper register; a name outside the table is shown as it is.
     */
    function Display(): (r: string)
      ensures !IsNoteName(westernName) ==> r == westernName
      ensures IsNoteName(westernName) ==>
        exists i | 0 <= i < |NoteTable| :: NoteTable[i].westernName == westernName
          && r == NoteTable[i].greekName + (if Primed(westernName, octave) then Prime else "")
    {
      GreekNoteName(westernName, octave)
    }
  }

  /** A key's identifier is its western name followed by its octave in decimal. */
  lemma IdSpellsKey(k: Key)
    ensures |k.Id()| > |k.westernName| && k.Id()[..|k.westernName|] == k.westernName
    ensures IsIntText(k.Id()[|k.westernName|..], k.octave)
  {
    NoteIdSpells(k.westernName, k.octave);
  }

  /** The closed-form count of keys from (startIndex, startOctave) to (endIndex, endOctave). */
  function KeyCount(startIndex: nat, startOctave: int, endIndex: nat, endOctave: int): int {
    (endOctave - startOctave) * 12 + (endIndex - startIndex) + 1
  }

  /** The key of table row `n` in `octave`: its distance from A4 is that of the octave plus the row's offset. */
  function KeyOf(n: NoteInfo, octave: int): Key {
    Key(n.westernName, octave, (octave - 4) * 12 + n.a4Offset, n.isBlack)
  }

  /**
   * Key number `i` of a range starting at table row `startIndex` in
   * `startOctave`: `i` semitones up, i.e. row (startIndex + i) mod 12 in
   * octave startOctave + (startIndex + i) div 12.
   */
  function KeyAt(startIndex: nat, startOctave: int, i: nat): Key
    requires startIndex < 12
  {
    KeyOf(NoteTable[(startIndex + i) % 12], startOctave + (startIndex + i) / 12)
  }

  /**
   * The keys from `startName` in `startOctave` to `endName` in `endOctave`:
   * none when either name is not in the table or when the count is not positive.
   */
  function KeyRange(startName: string, startOctave: int, endName: string, endOctave: int): seq<Key> {
    match (FindIndex(startName), FindIndex(endName))
    case (Some(si), Some(ei)) =>
      var n := KeyCount(si, startOctave, ei, endOctave);
      if n <= 0 then [] else seq(n, i requires 0 <= i < n => KeyAt(si, startOctave, i))
    case _ => []
  }

  /**
   * The key generator: empties the container, looks both names up (giving up
   * with no keys when one is missing), then walks the table from the start row.
   */
  method GeneratePianoKeys(startNoteName: string, startOctave: int, endNoteName: string, endOctave: int)
    returns (keys: seq<Key>)
    ensures keys == KeyRange(startNoteName, startOctave, endNoteName, endOctave)
  {
    keys := [];
    var startIndex := FindIndex(startNoteName);
    if startIndex.None? {
      return;
    }
    var endIndex := FindIndex(endNoteName);
    if endIndex.None? {
      return;
    }
    var total := KeyCount(startIndex.value, startOctave, endIndex.value, endOctave);
    keys := WalkKeys(startIndex.value, startOctave, total);
  }

  /**
   * The loop of the generator: `current` runs over the table without being
   * reduced, and the octave moves up whenever `current` reaches a multiple of
   * 12, except after the last key.
   */
  method WalkKeys(startIndex: nat, startOctave: int, total: int) returns (keys: seq<Key>)
    requires startIndex < 12
    ensures |keys| == (if total <= 0 then 0 else total)
    ensures forall j | 0 <= j < |keys| :: keys[j] == KeyAt(startIndex, startOctave, j)
  {
    keys := [];
    var current := startIndex;
    var octave := startOctave;
    var i := 0;
    while i < total
      invariant 0 <= i <= (if total <= 0 then 0 else total)
      invariant current == startIndex + i
      invariant i < total ==> octave == startOctave + current / 12
      invariant |keys| == i && forall j | 0 <= j < i :: keys[j] == KeyAt(startIndex, startOctave, j)
    {
      var note := NoteTable[current % 12];
      var semitones := (octave - 4) * 12 + note.a4Offset;
      keys := keys + [Key(note.westernName, octave, semitones, note.isBlack)];
      assert note == NoteTable[(startIndex + i) % 12] && octave == startOctave + (startIndex + i) / 12;
      assert keys[i] == KeyOf(NoteTable[(startIndex + i) % 12], startOctave + (startIndex + i) / 12);
      NextOctave(current);
      current := current + 1;
      if current % 12 == 0 && i < total - 1 {
        octave := octave + 1;
      }
      i := i + 1;
    }
  }

  /** Stepping past a multiple of 12 is what moves the quotient to the next octave. */
  lemma NextOctave(x: nat)
    ensures (x + 1) / 12 == x / 12 + (if (x + 1) % 12 == 0 then 1 else 0)
  {
  }

  /** An unknown start or end name gives no keys at all. */
  lemma UnknownNameNoKeys(startName: string, startOctave: int, endName: string, endOctave: int)
    requires !IsNoteName(startName) || !IsNoteName(endName)
    ensures KeyRange(startName, startOctave, endName, endOctave) == []
  {
  }

  /** The number of keys is the closed-form count (when it is positive). */
  lemma KeyRangeCount(startIndex: nat, startOctave: int, endIndex: nat, endOctave: int)
    requires startIndex < 12 && endIndex < 12
    ensures var keys := KeyRange(NoteTable[startIndex].westernName, startOctave, NoteTable[endIndex].westernName, endOctave);
      var n := (endOctave - startOctave) * 12 + (endIndex - startIndex) + 1;
      |keys| == if n <= 0 then 0 else n
  {
    TableShape();
    FindIndexExact(startIndex);
    FindIndexExact(endIndex);
  }

  /** Key `i` lies (startOctave - 4) * 12 + startIndex - 9 + i semitones from A4. */
  lemma KeyAtSemitones(startIndex: nat, startOctave: int, i: nat)
    requires startIndex < 12
    ensures KeyAt(startIndex, startOctave, i).semitones == (startOctave - 4) * 12 + startIndex - 9 + i
  {
    TableShape();
    var k := startIndex + i;
    assert (k / 12) * 12 + k % 12 == k;
  }

  /** Consecutive keys are one semitone apart, also across the B to C octave wrap. */
  lemma ConsecutiveSemitones(startName: string, startOctave: int, endName: string, endOctave: int, i: nat)
    requires i + 1 < |KeyRange(startName, startOctave, endName, endOctave)|
    ensures var keys := KeyRange(startName, startOctave, endName, endOctave);
      keys[i + 1].semitones == keys[i].semitones + 1
  {
    var si := FindIndex(startName).value;
    KeyAtSemitones(si, startOctave, i);
    KeyAtSemitones(si, startOctave, i + 1);
  }

  /** Key `i` of a range is KeyAt of the start row, and both names are in the table. */
  lemma KeyRangeAt(startName: string, startOctave: int, endName: string, endOctave: int, i: nat)
    requires i < |KeyRange(startName, startOctave, endName, endOctave)|
    ensures FindIndex(startName).Some? && FindIndex(endName).Some?
    ensures |KeyRange(startName, startOctave, endName, endOctave)|
         == KeyCount(FindIndex(startName).value, startOctave, FindIndex(endName).value, endOctave)
    ensures KeyRange(startName, startOctave, endName, endOctave)[i] == KeyAt(FindIndex(startName).value, startOctave, i)
  {
  }

  /** Division by 12 recovers the octave and the row from octave * 12 + row. */
  lemma DivModTwelve(q: int, r: int)
    requires 0 <= r < 12 && 0 <= q * 12 + r
    ensures (q * 12 + r) / 12 == q && (q * 12 + r) % 12 == r
  {
  }

  /**
   * A non-empty range starts at the start note in the start octave and ends at
   * the end note in the end octave.
   */
  lemma Endpoints(startName: string, startOctave: int, endName: string, endOctave: int)
    requires |KeyRange(startName, startOctave, endName, endOctave)| >= 1
    ensures var keys := KeyRange(startName, startOctave, endName, endOctave);
      && keys[0].westernName == startName && keys[0].octave == startOctave
      && keys[|keys| - 1].westernName == endName && keys[|keys| - 1].octave == endOctave
  {
    var keys := KeyRange(startName, startOctave, endName, endOctave);
    var si, ei := FindIndex(startName).value, FindIndex(endName).value;
    var last := |keys| - 1;
    assert last == KeyCount(si, startOctave, ei, endOctave) - 1;
    DivModTwelve(endOctave - startOctave, ei);
    assert si + last == (endOctave - startOctave) * 12 + ei;
    DivModTwelve(0, si);
  }

  /** Within one range no two keys share an identifier, so each key has its own voice. */
  lemma IdsDistinct(startName: string, startOctave: int, endName: string, endOctave: int, i: nat, j: nat)
    requires i < j < |KeyRange(startName, startOctave, endName, endOctave)|
    ensures var keys := KeyRange(startName, startOctave, endName, endOctave);
      keys[i].Id() != keys[j].Id()
  {
    KeyRangeAt(startName, startOctave, endName, endOctave, i);
    KeyRangeAt(startName, startOctave, endName, endOctave, j);
    var si := FindIndex(startName).value;
    var ki, kj := KeyAt(si, startOctave, i), KeyAt(si, startOctave, j);
    var ri, rj := (si + i) % 12, (si + j) % 12;
    TableShape();
    assert ki.westernName == NoteTable[ri].westernName && ki.octave == startOctave + (si + i) / 12;
    assert kj.westernName == NoteTable[rj].westernName && kj.octave == startOctave + (si + j) / 12;
    if ki.Id() == kj.Id() {
      assert IsNoteName(ki.westernName) && IsNoteName(kj.westernName);
      NoteIdInjective(ki.westernName, ki.octave, kj.westernName, kj.octave);
      NamesDistinct();
      assert false;
    }
  }

  /**
   * The range the piano generates, A3 to D5: 18 keys, A4 is key 12 and lies 0
   * semitones from A4.
   */
  lemma BaseRange()
    ensures var keys := KeyRange("A", 3, "D", 5);
      |keys| == 18 && keys[12].westernName == "A" && keys[12].octave == 4 && keys[12].semitones == 0
  {
    FindIndexExact(9);
    FindIndexExact(2);
    assert FindIndex("A") == Some(9) && FindIndex("D") == Some(2);
    assert KeyCount(9, 3, 2, 5) == 18;
    KeyRangeAt("A", 3, "D", 5, 12);
    KeyAtSemitones(9, 3, 12);
  }
}

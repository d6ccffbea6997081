# Byzantine piano: key generation, Greek labels and the active-voice state machine

This project models the logic inside the browser piano's `js/script.js` once the
page, the Web Audio graph and the floating-point pitch arithmetic are taken away.
Three parts are modelled.

- **The note table and the Greek labels** (`notes.dfy`, module `Notes`). The 12-row
  table of western names, Greek names, offsets from A and raised-key flags. The
  lookup of a western name in it. `getGreekNoteName`, which chooses the prime
  suffix (U+1FBD) by note and octave. The key identifier (`"C#4"`) that the page
  writes into each key's `data-note`.
- **Key-range generation** (`key_range.dfy`, module `PianoKeys`). `generatePianoKeys`
  is the method `GeneratePianoKeys` with its loop (`WalkKeys`). The loop walks an
  unreduced table index and moves up an octave at each multiple of 12. The method
  is proved equal to the closed-form `KeyRange`, in which key `i` is row
  `(start + i) mod 12` in octave `startOctave + (start + i) div 12`. Count,
  endpoints, consecutive semitone offsets and distinct identifiers are proved
  about `KeyRange`.
- **The active-voice map and its handlers**. `voices.dfy` (module `Voices`) holds
  the state machine as pure steps: `Play`, `Stop`, `StopAll`, and the `onended`
  callback as a separate `Ended` event. `piano.dfy` (module `Piano`) holds the
  class `Piano`. Its fields are the ones the page updates in place: `audioCtx` as a
  flag, the `oscillators` map, the keys marked "active", the `onended` handler of
  each oscillator, and the generated keys. Each handler is proved to perform the
  matching step. `keyboard.dfy` (module `Keyboard`) holds the keyboard table and
  the decisions of the keydown and keyup handlers.

A voice (an oscillator with its gain node) is known only by the serial number of
its creation, which stands for object identity. The audio side is kept as two
ghost sets: the oscillators still sounding and those with a stop scheduled. An
oscillator's end arrives as the event `Ended(v)`, and only for a sounding
oscillator with a stop scheduled. Its order relative to other events is left to
the environment.

Three behaviours of the code are worth stating plainly.
- `stopAllNotes` replaces the whole map (`StopAll`), so the `onended` cleanup is
  not the only way an entry goes away.
- A range whose closed-form count is zero or negative yields no keys, because the
  loop does not run.
- An unknown start or end name yields no keys, not the previous ones, because the
  container is emptied before the lookup.

## Model

| member | source | states |
|---|---|---|
| Notes.TableShape | js/script.js:12-25 | the table has 12 rows, offsets run from -9 by one, raised keys are exactly the sharp names, and each name is a letter with an optional '#' |
| Notes.NamesDistinct | js/script.js:12-25 | no two rows share a western name |
| Notes.FindIndex | js/script.js:63-65 | the lookup succeeds exactly for names of the table, and then returns a row holding that name |
| Notes.FindIndexExact | js/script.js:63-65 | looking up the name of row i returns row i |
| Notes.GreekNoteName | js/script.js:32-34 | an unknown western name is returned unchanged |
| Notes.GreekNameOfRow | js/script.js:36-51 | the label of a known note is its Greek name, with the prime exactly when octave >= 5, or octave = 4 and the note is B or A# |
| Notes.PrimeSuffixExactly | js/script.js:39-51 | a label ends in the prime character exactly when the note is primed |
| Notes.LowOctavesUnprimed | js/script.js:39-40 | in octave 3 and below the label is the bare Greek name |
| Notes.NatText | js/script.js:88 | the text of a natural number is a numeral: digits only, no leading zero, starting with '0' only for 0, one digit exactly below 10 |
| Notes.NatTextValue | js/script.js:88 | that numeral's decimal value is the number itself |
| Notes.OctaveText | js/script.js:88 | the octave's text starts with a digit or '-', and with '-' exactly for a negative octave |
| Notes.OctaveTextValue | js/script.js:88 | the octave's text is its decimal numeral, after '-' when negative, which is what the template literal writes for every integer octave below 10^21 in magnitude |
| Notes.OctaveTextInjective | js/script.js:88 | different octaves have different texts |
| Notes.NoteIdSpells | js/script.js:88 | an identifier is the western name followed by the octave's decimal text |
| PianoKeys.IdSpellsKey | js/script.js:88-94 | the `data-note` identifier of a key is its western name followed by its octave's decimal text |
| PianoKeys.Key.Display | js/script.js:89-95 | the text on a key is the Greek name of its row, primed exactly as `getGreekNoteName` decides; a name outside the table is shown unchanged |
| Notes.NoteIdInjective | js/script.js:88 | two keys of the table with the same identifier have the same note and the same octave |
| PianoKeys.GeneratePianoKeys | js/script.js:55-125 | the generated keys are exactly the closed-form range `KeyRange` |
| PianoKeys.WalkKeys | js/script.js:80-124 | the loop emits max(0, count) keys, and key i is row (start + i) mod 12 in octave startOctave + (start + i) div 12 |
| PianoKeys.NextOctave | js/script.js:120-123 | the octave goes up by one exactly when the index steps onto a multiple of 12 |
| PianoKeys.UnknownNameNoKeys | js/script.js:61-75 | an unknown start or end name gives no keys |
| PianoKeys.KeyRangeCount | js/script.js:77-83 | the number of keys is (endOctave - startOctave) * 12 + (endIndex - startIndex) + 1 when that is positive, and 0 otherwise |
| PianoKeys.KeyRangeAt | js/script.js:83-123 | key i of a range is the key of row (start + i) mod 12 in octave startOctave + (start + i) div 12, and both names are in the table |
| PianoKeys.KeyAtSemitones | js/script.js:84-85 | key i lies (startOctave - 4) * 12 + startIndex - 9 + i semitones from A4 |
| PianoKeys.ConsecutiveSemitones | js/script.js:84-123 | consecutive keys are exactly one semitone apart, also across the B to C octave wrap |
| PianoKeys.Endpoints | js/script.js:77-123 | a non-empty range starts at the start note and octave and ends at the end note and octave |
| PianoKeys.IdsDistinct | js/script.js:88-94 | no two keys of one range carry the same identifier |
| PianoKeys.BaseRange | js/script.js:134 | the A3 to D5 range has 18 keys, and key 12 is A4 at offset 0 |
| Keyboard.LowerChar | js/script.js:295 | ASCII capitals map to their lower-case letters, and every other character is unchanged |
| Keyboard.ToLower | js/script.js:295 | lower-casing keeps the length and lowers each character |
| Keyboard.ToLowerIdempotent | js/script.js:295 | lower-casing twice is lower-casing once |
| Keyboard.CapitalSelectsSameKey | js/script.js:294-316 | the capital of a letter key selects the same note as the letter, on keydown and on keyup |
| Keyboard.FindKey | js/script.js:297-299 | the query finds the first key carrying the identifier, or reports that none does |
| Keyboard.KeyDownNote | js/script.js:294-304 | a repeat, an unmapped character, a missing key or a key marked active plays nothing; otherwise the mapped key of the range is played |
| Keyboard.KeyUpNote | js/script.js:306-316 | an unmapped character releases nothing; a mapped one releases its key exactly when that key exists |
| Keyboard.BaseKeyId | js/script.js:134 | key i of the range starting at A3 carries the i-th identifier from A3 to D5 |
| Keyboard.BaseRangeIds | js/script.js:134 | the A3 to D5 keys carry the identifiers A3, A#3, ..., D5 in order |
| Keyboard.KeyboardTargetsAreBaseIds | js/script.js:272-291 | the keyboard table's targets are exactly the identifiers A3 to D5 |
| Keyboard.KeyboardCoversBaseRange | js/script.js:272-291 | every table character finds a key of the generated range, and every key of the range is some character's target |
| Keyboard.KeyDownOnBaseRange | js/script.js:294-303 | on the generated keys, a non-repeat keydown of a mapped character whose key is not active plays that key |
| Voices.VoicesNeedContext | js/script.js:149-168 | in a consistent state, a map entry, a handler, a sounding or a stopping voice all imply that the context exists |
| Voices.InitAudio | js/script.js:149-157 | the first gesture makes the context exist, a second one changes nothing, and no voice, key mark or handler is touched |
| Voices.Play | js/script.js:159-202 | nothing changes without a context or when the key has a voice; otherwise exactly one entry is added, under the key, holding a new sounding voice; the key is marked active, and no other entry, mark, handler or scheduled stop changes |
| Voices.Stop | js/script.js:205-230 | releasing never changes the map; a key with a voice loses its active mark (no other key does), its voice gets a scheduled stop and an `onended` handler for that key |
| Voices.StopAll | js/script.js:232-247 | with a context the map becomes empty, no key stays active, every mapped voice gets a scheduled stop and the handlers stay set; without one nothing changes |
| Voices.Ended | js/script.js:224-228 | the ended oscillator stops sounding and loses its handler; the handler deletes its captured key from the current map whichever voice that entry holds; key marks and scheduled stops are unchanged |
| Voices.EndedGuarded | js/script.js:224-228 | corrected handler: it deletes the captured key exactly when that entry still holds the ended voice, and otherwise leaves the map as it is |
| Voices.GuardedDiffersOnlyWhenStale | js/script.js:224-228 | the corrected handler differs from the one as written exactly when the captured key holds another voice |
| Voices.GuardedPressReleaseEnd | js/script.js:159-228 | with the corrected handler, press, release and that voice's end still remove the key's entry and leave every other entry as before |
| Voices.RunValid | js/script.js:159-247 | any sequence of events keeps every voice serial below the next one, and creates voices only once the context exists |
| Voices.PlayIdempotent | js/script.js:168 | playing a key twice is playing it once |
| Voices.PressReleaseEnd | js/script.js:159-228 | press, release and the end of that voice remove the key's entry and leave every other entry as before |
| Voices.StopKeepsEntries | js/script.js:205-230 | any number of releases leave the map unchanged: releases never remove an entry; the voice's `onended` callback does |
| Voices.GuardedStepTracked | js/script.js:224-228 | with the corrected handler, every event keeps each sounding, unstopped voice reachable through the map |
| Voices.GuardedRunTracked | js/script.js:224-228 | with the corrected handler, any sequence of events keeps each sounding, unstopped voice reachable |
| Voices.OrphanStepStays | js/script.js:159-247 | a sounding voice with no stop and no map entry keeps that status through any event |
| Voices.OrphanForever | js/script.js:159-247 | such a voice stays sounding, unstopped and unmapped after any sequence of events |
| Voices.StaleEndedOrphansVoice | js/script.js:224-242 | with the handler as written, play, release, stop-all, play again and the first oscillator's end leave the second voice sounding with no entry; the corrected handler keeps it |
| Piano.Piano.constructor | js/script.js:249-253 | page setup: no context, an empty map and the A3 to D5 keys |
| Piano.Piano.InitializeAudioContext | js/script.js:149-157 | performs `InitAudio` on the page state |
| Piano.Piano.PlayNote | js/script.js:159-202 | performs `Play` on the page state and keeps the keys |
| Piano.Piano.StopNote | js/script.js:205-230 | performs `Stop` on the page state and keeps the keys |
| Piano.Piano.StopAllNotes | js/script.js:232-247 | performs `StopAll` on the page state and keeps the keys |
| Piano.Piano.VoiceEnded | js/script.js:224-228 | performs the handler as written (`Ended`) on the page state |
| Piano.Piano.SetBaseTuning | js/script.js:128-136 | silences everything (`StopAll`) and regenerates the A3 to D5 keys |
| Piano.Piano.SetInstrument | js/script.js:261-264 | records the instrument and silences everything (`StopAll`) |
| Piano.Piano.KeyDown | js/script.js:294-304 | plays the note `KeyDownNote` chooses, and otherwise changes nothing |
| Piano.Piano.KeyUp | js/script.js:306-316 | releases the note `KeyUpNote` chooses, and otherwise changes nothing |

## Findings

| source | as written | input that shows it | evidently intended | confidence | as-written member | corrected member |
|---|---|---|---|---|---|---|
| js/script.js:224-228 | the `onended` closure runs `delete oscillators[note]` on whatever object `oscillators` names when it runs | press a key, release it, change tuning or instrument while it is still releasing (stopAllNotes moves its stop to 50 ms later), press the same key again within those 50 ms; the first oscillator's `onended` then deletes the new voice's entry, and the new voice sounds on, since no stopNote or stopAllNotes can reach it | delete the entry only while it still holds the oscillator that ended | not executed; medium (the window is 50 ms) | Voices.StaleEndedOrphansVoice | Voices.GuardedRunTracked |

The class `Piano.Piano` keeps the handler as written (`VoiceEnded` performs
`Voices.Ended`). `Voices.OrphanForever` shows that a voice orphaned this way stays
sounding through any later events. `Voices.EndedGuarded` is the corrected
handler. It still deletes a key's entry when that entry holds the voice that ended
(`Voices.GuardedPressReleaseEnd`), and differs from the handler as written only
on a stale end (`Voices.GuardedDiffersOnlyWhenStale`). `Voices.GuardedRunTracked`
proves that with it no sounding voice without a scheduled stop ever leaves the map.

## Left out

- Pitch: `baseA4Frequency * 2^(n/12)`, `toFixed`/`parseFloat` on `data-frequency`, and the parse and display of the tuning value. These are floating point, so only the integer offset `semitones` is modelled.
- Web Audio: oscillator and gain creation, waveform per instrument, the attack ramp, the exponential release, release times (0.3 s, 0.8 s, 0.05 s), `cancelScheduledValues`, `disconnect`, and `AudioContext` creation with its `resume()` promise. A voice is a serial number, and "stop scheduled" and "ended" are events without times.
- Document work: creating elements, CSS classes other than "active", `textContent`, and binding the mouse and touch listeners. Those listeners call `playNote`/`stopNote` on their own element, which is `Piano.PlayNote`/`Piano.StopNote` on the element's identifier.
- Keyboard.LowerChar and Keyboard.ToLower: lower ASCII letters only and keep the length. JavaScript's `toLowerCase` uses full Unicode case mapping (U+212A KELVIN SIGN becomes 'k', for one) and can change the length ("İ" becomes "i" followed by U+0307).
- Octaves, table indices and key counts are unbounded integers. In JavaScript they are doubles, which lose exactness above 2^53 and which a template literal prints in exponent form from 10^21 on ("1e+21"). The page only generates octaves 3 to 5.
- Keyboard.FindKey: the identifier is compared as a string. The CSS selector's quoting is not modelled; no identifier of the table contains a quote.
- Plain-object lookups: `oscillators[note]` and `keyboardMap[key]` would also see inherited properties such as "constructor". No key identifier and no key name is such a property, so both are modelled as maps.
- Logging: the console messages for an unknown note and for a press before the context exists.
- The instrument value is only recorded. Its effect (waveform, attack and release) belongs to the audio graph left out above.

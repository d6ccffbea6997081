/**
 * The page-level state of the piano and its event handlers: the audio context
 * flag, the active-voice map, the keys marked active and the generated keys,
 * updated in place by playNote, stopNote, stopAllNotes, the `onended`
 * callbacks, the tuning and instrument selectors and the keyboard handlers.
 * Each handler is proved against the matching step of the Voices module.
 */
module Piano {
  import opened Wrappers
  import opened PianoKeys
  import opened Keyboard
  import Voices

  class Piano {
    /** `audioCtx` has been created. */
    var audioReady: bool
    /** Key identifier to the voice playing it. */
    var oscillators: map<string, Voices.Voice>
    /** Identifiers of the keys whose element carries the class "active". */
    var active: set<string>
    /** For each oscillator whose `onended` is set, the identifier that handler deletes. */
    var onEnded: map<Voices.Voice, string>
    /** Serial of the next oscillator created (oscillators are told apart by identity). */
    var nextVoice: Voices.Voice
    /** The keys in the container. */
    var keys: seq<Key>
    /** The selected instrument. */
    var instrument: string
    /** Audio side: oscillators still producing sound, and those with a stop scheduled. */
    ghost var sounding: set<Voices.Voice>
    ghost var stopping: set<Voices.Voice>

    ghost function State(): Voices.State
      reads this
    {
      Voices.State(audioReady, oscillators, active, onEnded, sounding, stopping, nextVoice)
    }

    /** The voice state is consistent and the container holds the A3 to D5 keys. */
    ghost predicate Valid()
      reads this
    {
      Voices.Valid(State()) && keys == KeyRange("A", 3, "D", 5)
    }

    /** Page setup: no audio context yet, the initial tuning applied (keys A3 to D5). */
    constructor (instrument: string)
      ensures Valid() && State() == Voices.Initial() && this.instrument == instrument
    {
      var generated := GeneratePianoKeys("A", 3, "D", 5);
      audioReady := false;
      oscillators := map[];
      active := {};
      onEnded := map[];
      nextVoice := 0;
      sounding := {};
      stopping := {};
      this.instrument := instrument;
      keys := generated;
    }

    /** The first mouse, key or touch gesture creates the audio context. */
    method InitializeAudioContext()
      requires Valid()
      modifies this
      ensures Valid() && State() == Voices.InitAudio(old(State()))
      ensures keys == old(keys) && instrument == old(instrument)
    {
      if !audioReady {
        audioReady := true;
      }
    }

    method PlayNote(note: string)
      requires Valid()
      modifies this
      ensures Valid() && State() == Voices.Play(old(State()), note)
      ensures keys == old(keys) && instrument == old(instrument)
    {
      if !audioReady {
        return;
      }
      if note !in oscillators {
        active := active + {note};
        var v := nextVoice;
        nextVoice := nextVoice + 1;
        sounding := sounding + {v};
        oscillators := oscillators[note := v];
      }
    }

    method StopNote(note: string)
      requires Valid()
      modifies this
      ensures Valid() && State() == Voices.Stop(old(State()), note)
      ensures keys == old(keys) && instrument == old(instrument)
    {
      if note in oscillators {
        active := active - {note};
        var v := oscillators[note];
        stopping := stopping + {v};
        onEnded := onEnded[v := note];
      }
    }

    method StopAllNotes()
      requires Valid()
      modifies this
      ensures Valid() && State() == Voices.StopAll(old(State()))
      ensures keys == old(keys) && instrument == old(instrument)
    {
      if audioReady {
        stopping := stopping + oscillators.Values;
        oscillators := map[];
        active := {};
      }
    }

    /** The `onended` callback of oscillator `v`, as the page's `onended` closure does it. */
    method VoiceEnded(v: Voices.Voice)
      requires Valid() && v in sounding && v in stopping
      modifies this
      ensures Valid() && State() == Voices.Ended(old(State()), v)
      ensures keys == old(keys) && instrument == old(instrument)
    {
      sounding := sounding - {v};
      if v in onEnded {
        var note := onEnded[v];
        oscillators := oscillators - {note};
        onEnded := onEnded - {v};
      }
    }

    /** A tuning change: silence everything and regenerate the A3 to D5 keys. */
    method SetBaseTuning()
      requires Valid()
      modifies this
      ensures Valid() && State() == Voices.StopAll(old(State()))
      ensures instrument == old(instrument)
    {
      StopAllNotes();
      keys := GeneratePianoKeys("A", 3, "D", 5);
    }

    /** An instrument change: record it and silence everything. */
    method SetInstrument(newInstrument: string)
      requires Valid()
      modifies this
      ensures Valid() && State() == Voices.StopAll(old(State()))
      ensures instrument == newInstrument && keys == old(keys)
    {
      instrument := newInstrument;
      StopAllNotes();
    }

    /**
     * keydown: a character of the table, not a repeat, whose key exists and is
     * not marked active, plays that key; anything else changes nothing.
     */
    method KeyDown(key: string, repeat: bool)
      requires Valid()
      modifies this
      ensures Valid() && keys == old(keys) && instrument == old(instrument)
      ensures State() == match KeyDownNote(old(keys), old(active), key, repeat)
        case Some(note) => Voices.Play(old(State()), note)
        case None => old(State())
    {
      var lower := ToLower(key);
      if lower in KeyboardMap && !repeat {
        var noteName := KeyboardMap[lower];
        var found := FindKey(keys, noteName);
        if found.Some? && keys[found.value].Id() !in active {
          PlayNote(keys[found.value].Id());
        }
      }
    }

    /** keyup: a character of the table whose key exists releases that key. */
    method KeyUp(key: string)
      requires Valid()
      modifies this
      ensures Valid() && keys == old(keys) && instrument == old(instrument)
      ensures State() == match KeyUpNote(old(keys), key)
        case Some(note) => Voices.Stop(old(State()), note)
        case None => old(State())
    {
      var lower := ToLower(key);
      if lower in KeyboardMap {
        var found := FindKey(keys, KeyboardMap[lower]);
        if found.Some? {
          StopNote(keys[found.value].Id());
        }
      }
    }
  }
}

/**
 * The active-voice bookkeeping of the piano as a state machine: playing a
 * note, releasing it, silencing everything, and the `onended` callback of an
 * oscillator, which is a separate event that arrives once the scheduled stop
 * has happened. Oscillator and gain-node details are abstracted: a voice is
 * known only by the serial number of its creation.
 */
module Voices {

  /** An oscillator with its gain stage; distinct creations have distinct serials. */
  type Voice = nat

  /**
   * The state the handlers share: whether the audio context exists, the map
   * from key identifier to its voice, the keys shown as active, for each
   * oscillator whose `onended` handler is set the key identifier that handler
   * deletes, and, on the audio side, the oscillators still sounding and those
   * with a stop scheduled; `nextVoice` is the serial of the next creation.
   */
  datatype State = State(
    audioReady: bool,
    oscillators: map<string, Voice>,
    active: set<string>,
    onEnded: map<Voice, string>,
    sounding: set<Voice>,
    stopping: set<Voice>,
    nextVoice: Voice)

  /** Before the first user gesture: no context, no voices, nothing active. */
  function Initial(): State {
    State(false, map[], {}, map[], {}, {}, 0)
  }

  /**
   * Every voice the state mentions was created before `nextVoice`, and voices
   * are created only once the audio context exists.
   */
  ghost predicate Valid(s: State) {
    && (forall n | n in s.oscillators :: s.oscillators[n] < s.nextVoice)
    && (forall v | v in s.onEnded :: v < s.nextVoice)
    && (forall v | v in s.sounding :: v < s.nextVoice)
    && (forall v | v in s.stopping :: v < s.nextVoice)
    && (s.nextVoice > 0 ==> s.audioReady)
  }

  /** In a consistent state no voice of any kind exists without an audio context. */
  lemma VoicesNeedContext(s: State)
    requires Valid(s)
    requires s.oscillators != map[] || s.onEnded != map[] || s.sounding != {} || s.stopping != {}
    ensures s.audioReady
  {
    if s.oscillators != map[] {
      var n :| n in s.oscillators;
    } else if s.onEnded != map[] {
      var v :| v in s.onEnded;
    } else if s.sounding != {} {
      var v :| v in s.sounding;
    } else {
      var v :| v in s.stopping;
    }
  }

  /** The context is created on the first gesture and kept from then on. */
  function InitAudio(s: State): (t: State)
    ensures Valid(s) ==> Valid(t)
    ensures t.audioReady && (s.audioReady ==> t == s)
    ensures && t.oscillators == s.oscillators && t.active == s.active && t.onEnded == s.onEnded
            && t.sounding == s.sounding && t.stopping == s.stopping && t.nextVoice == s.nextVoice
  {
    s.(audioReady := true)
  }

  /**
   * playNote: nothing without an audio context, nothing when the key already
   * has a voice; otherwise a new voice starts and is recorded under the key.
   */
  function Play(s: State, note: string): (t: State)
    ensures Valid(s) ==> Valid(t)
    ensures !s.audioReady ==> t == s
    ensures note in s.oscillators ==> t == s
    ensures s.audioReady && note !in s.oscillators ==>
      && t.oscillators.Keys == s.oscillators.Keys + {note}
      && (forall n | n in s.oscillators :: t.oscillators[n] == s.oscillators[n])
      && t.oscillators[note] in t.sounding && note in t.active
      && t.audioReady && t.active == s.active + {note} && t.onEnded == s.onEnded
      && t.sounding == s.sounding + {t.oscillators[note]} && t.stopping == s.stopping
      && t.nextVoice == s.nextVoice + 1
    ensures Valid(s) && s.audioReady && note !in s.oscillators ==>
      && t.oscillators[note] !in s.sounding && t.oscillators[note] !in s.oscillators.Values
      && t.oscillators[note] !in t.stopping
  {
    if !s.audioReady || note in s.oscillators then s
    else
      s.(oscillators := s.oscillators[note := s.nextVoice],
         active := s.active + {note},
         sounding := s.sounding + {s.nextVoice},
         nextVoice := s.nextVoice + 1)
  }

  /**
   * stopNote: when the key has a voice, the key stops being active, the voice
   * gets its release and a scheduled stop, and its `onended` handler is set to
   * delete the key. The map entry itself stays until that handler runs.
   */
  function Stop(s: State, note: string): (t: State)
    ensures Valid(s) ==> Valid(t)
    ensures t.oscillators == s.oscillators && t.sounding == s.sounding
    ensures t.audioReady == s.audioReady && t.nextVoice == s.nextVoice
    ensures note !in s.oscillators ==> t == s
    ensures note in s.oscillators ==>
      && t.active == s.active - {note}
      && t.onEnded == s.onEnded[s.oscillators[note] := note]
      && t.stopping == s.stopping + {s.oscillators[note]}
  {
    if note !in s.oscillators then s
    else
      var v := s.oscillators[note];
      s.(active := s.active - {note},
         onEnded := s.onEnded[v := note],
         stopping := s.stopping + {v})
  }

  /**
   * stopAllNotes: with an audio context, every voice in the map gets a short
   * release and a scheduled stop, the map is replaced by an empty one and no
   * key stays active. Handlers already set stay set.
   */
  function StopAll(s: State): (t: State)
    ensures Valid(s) ==> Valid(t)
    ensures !s.audioReady ==> t == s
    ensures s.audioReady ==>
      && t.oscillators == map[] && t.active == {}
      && t.stopping == s.stopping + s.oscillators.Values
      && t.onEnded == s.onEnded && t.sounding == s.sounding
      && t.audioReady && t.nextVoice == s.nextVoice
  {
    if !s.audioReady then s
    else s.(oscillators := map[], active := {}, stopping := s.stopping + s.oscillators.Values)
  }

  /**
   * The end of oscillator `v`, which only a sounding oscillator with a
   * scheduled stop reaches. If its `onended` handler is set, the handler
   * deletes the key it captured from whatever map is current, whichever voice
   * that entry holds.
   */
  function Ended(s: State, v: Voice): (t: State)
    requires v in s.sounding && v in s.stopping
    ensures Valid(s) ==> Valid(t)
    ensures t.sounding == s.sounding - {v} && t.onEnded == s.onEnded - {v}
    ensures && t.audioReady == s.audioReady && t.active == s.active
            && t.stopping == s.stopping && t.nextVoice == s.nextVoice
    ensures v in s.onEnded ==> t.oscillators == s.oscillators - {s.onEnded[v]}
    ensures v !in s.onEnded ==> t.oscillators == s.oscillators
  {
    var t := s.(sounding := s.sounding - {v}, onEnded := s.onEnded - {v});
    if v in s.onEnded then t.(oscillators := s.oscillators - {s.onEnded[v]}) else t
  }

  /** The `onended` handler of `v` is set, and the key it captured still holds `v`. */
  predicate HoldsOwnEntry(s: State, v: Voice) {
    v in s.onEnded && s.onEnded[v] in s.oscillators && s.oscillators[s.onEnded[v]] == v
  }

  /**
   * The end of oscillator `v` with a handler that deletes the captured key
   * only while that key still holds `v`.
   */
  function EndedGuarded(s: State, v: Voice): (t: State)
    requires v in s.sounding && v in s.stopping
    ensures Valid(s) ==> Valid(t)
    ensures t.sounding == s.sounding - {v} && t.onEnded == s.onEnded - {v}
    ensures && t.audioReady == s.audioReady && t.active == s.active
            && t.stopping == s.stopping && t.nextVoice == s.nextVoice
    ensures HoldsOwnEntry(s, v) ==> t.oscillators == s.oscillators - {s.onEnded[v]}
    ensures !HoldsOwnEntry(s, v) ==> t.oscillators == s.oscillators
    ensures forall n | n in s.oscillators && s.oscillators[n] != v :: n in t.oscillators && t.oscillators[n] == s.oscillators[n]
  {
    var t := s.(sounding := s.sounding - {v}, onEnded := s.onEnded - {v});
    if HoldsOwnEntry(s, v) then t.(oscillators := s.oscillators - {s.onEnded[v]}) else t
  }

  /**
   * The two handlers differ exactly on a stale end: when the key the handler
   * captured now holds another voice.
   */
  lemma GuardedDiffersOnlyWhenStale(s: State, v: Voice)
    requires v in s.sounding && v in s.stopping
    ensures EndedGuarded(s, v) != Ended(s, v)
        <==> v in s.onEnded && s.onEnded[v] in s.oscillators && s.oscillators[s.onEnded[v]] != v
  {
    if v in s.onEnded && s.onEnded[v] in s.oscillators && s.oscillators[s.onEnded[v]] != v {
      assert s.onEnded[v] !in Ended(s, v).oscillators;
    }
  }

  // ----- event sequences -----

  /** What can happen: the first gesture, the three handlers, the end of an oscillator. */
  datatype Event = InitAudioEvent | PlayEvent(note: string) | StopEvent(note: string) | StopAllEvent | EndedEvent(v: Voice)

  /** One event; an oscillator that is not sounding with a stop scheduled cannot end. */
  function Step(s: State, e: Event, guarded: bool): State {
    match e
    case InitAudioEvent => InitAudio(s)
    case PlayEvent(note) => Play(s, note)
    case StopEvent(note) => Stop(s, note)
    case StopAllEvent => StopAll(s)
    case EndedEvent(v) =>
      if v in s.sounding && v in s.stopping then
        (if guarded then EndedGuarded(s, v) else Ended(s, v))
      else s
  }

  /** A sequence of events, with the handler as written (`guarded` false) or guarded. */
  function Run(s: State, events: seq<Event>, guarded: bool): State
    decreases |events|
  {
    if events == [] then s else Run(Step(s, events[0], guarded), events[1..], guarded)
  }

  lemma {:induction false} RunValid(s: State, events: seq<Event>, guarded: bool)
    requires Valid(s)
    ensures Valid(Run(s, events, guarded))
    decreases |events|
  {
    if events != [] {
      RunValid(Step(s, events[0], guarded), events[1..], guarded);
    }
  }

  // ----- properties of single steps -----

  /** Playing a key twice is playing it once. */
  lemma PlayIdempotent(s: State, note: string)
    ensures Play(Play(s, note), note) == Play(s, note)
  {
  }

  /**
   * Press, release, end: once the released voice has ended, its key has no
   * entry again and every other entry is as before.
   */
  lemma PressReleaseEnd(s: State, note: string)
    requires Valid(s) && s.audioReady && note !in s.oscillators
    ensures var p := Play(s, note);
      var v := p.oscillators[note];
      var r := Stop(p, note);
      v in r.sounding && v in r.stopping &&
      Ended(r, v).oscillators == s.oscillators && note !in Ended(r, v).oscillators
  {
    var p := Play(s, note);
    var v := p.oscillators[note];
    var r := Stop(p, note);
    assert r.onEnded[v] == note;
    assert p.oscillators - {note} == s.oscillators;
  }

  /** Press, release, end with the corrected handler: the same round trip as with the handler as written. */
  lemma GuardedPressReleaseEnd(s: State, note: string)
    requires Valid(s) && s.audioReady && note !in s.oscillators
    ensures var p := Play(s, note);
      var v := p.oscillators[note];
      var r := Stop(p, note);
      v in r.sounding && v in r.stopping &&
      EndedGuarded(r, v).oscillators == s.oscillators && note !in EndedGuarded(r, v).oscillators
  {
    var p := Play(s, note);
    var v := p.oscillators[note];
    var r := Stop(p, note);
    assert HoldsOwnEntry(r, v);
    assert p.oscillators - {note} == s.oscillators;
  }

  /** Releasing never removes an entry: after any number of releases the map is unchanged. */
  lemma StopKeepsEntries(s: State, notes: seq<string>)
    ensures Run(s, seq(|notes|, i requires 0 <= i < |notes| => StopEvent(notes[i])), false).oscillators == s.oscillators
    decreases |notes|
  {
    var events := seq(|notes|, i requires 0 <= i < |notes| => StopEvent(notes[i]));
    if notes != [] {
      assert events[1..] == seq(|notes[1..]|, i requires 0 <= i < |notes[1..]| => StopEvent(notes[1..][i]));
      StopKeepsEntries(Stop(s, notes[0]), notes[1..]);
    }
  }

  // ----- voices that nothing can stop any more -----

  /**
   * Every oscillator still sounding without a scheduled stop can be reached
   * through the map, so some stopNote or stopAllNotes can still stop it.
   */
  ghost predicate Tracked(s: State) {
    forall v | v in s.sounding && v !in s.stopping :: v in s.oscillators.Values
  }

  /** Voice `w` sounds, has no stop scheduled and is not in the map. */
  ghost predicate Orphan(s: State, w: Voice) {
    w in s.sounding && w !in s.stopping && w !in s.oscillators.Values
  }

  /** With the guarded handler every event keeps every unstopped voice reachable. */
  lemma GuardedStepTracked(s: State, e: Event)
    requires Valid(s) && Tracked(s)
    ensures Tracked(Step(s, e, true))
  {
    var t := Step(s, e, true);
    forall w | w in t.sounding && w !in t.stopping
      ensures w in t.oscillators.Values
    {
      match e
      case PlayEvent(note) =>
        if w in s.sounding {
          var n :| n in s.oscillators && s.oscillators[n] == w;
          assert t.oscillators[n] == w;
        } else {
          assert t.oscillators[note] == w;
        }
      case EndedEvent(v) =>
        var n :| n in s.oscillators && s.oscillators[n] == w;
        assert n in t.oscillators && t.oscillators[n] == w;
      case StopEvent(note) =>
      case StopAllEvent =>
      case InitAudioEvent =>
    }
  }

  /** From the initial state, the guarded handler never leaves a voice that nothing can stop. */
  lemma {:induction false} GuardedRunTracked(s: State, events: seq<Event>)
    requires Valid(s) && Tracked(s)
    ensures Tracked(Run(s, events, true))
    decreases |events|
  {
    if events != [] {
      GuardedStepTracked(s, events[0]);
      RunValid(s, events[..1], true);
      assert Run(s, events[..1], true) == Step(s, events[0], true);
      GuardedRunTracked(Step(s, events[0], true), events[1..]);
    }
  }

  /** No event ever stops or maps an orphaned voice again: it keeps sounding. */
  lemma OrphanStepStays(s: State, e: Event, guarded: bool, w: Voice)
    requires Valid(s) && Orphan(s, w)
    ensures Orphan(Step(s, e, guarded), w)
  {
  }

  /** An orphaned voice stays orphaned, sounding for good, whatever events follow. */
  lemma {:induction false} OrphanForever(s: State, events: seq<Event>, guarded: bool, w: Voice)
    requires Valid(s) && Orphan(s, w)
    ensures Orphan(Run(s, events, guarded), w)
    decreases |events|
  {
    if events != [] {
      OrphanStepStays(s, events[0], guarded, w);
      RunValid(s, events[..1], guarded);
      assert Run(s, events[..1], guarded) == Step(s, events[0], guarded);
      OrphanForever(Step(s, events[0], guarded), events[1..], guarded, w);
    }
  }

  /**
   * The handler as written: press A4, release it, silence everything before
   * the release is over, press A4 again, and then the first oscillator ends.
   * Its handler deletes the entry of the second voice, which sounds on with no
   * stop scheduled and which no later event can reach.
   */
  lemma StaleEndedOrphansVoice()
    ensures var script := [InitAudioEvent, PlayEvent("A4"), StopEvent("A4"), StopAllEvent, PlayEvent("A4"), EndedEvent(0)];
      && Orphan(Run(Initial(), script, false), 1)
      && !Tracked(Run(Initial(), script, false))
      && Tracked(Run(Initial(), script, true))
  {
    var script := [InitAudioEvent, PlayEvent("A4"), StopEvent("A4"), StopAllEvent, PlayEvent("A4"), EndedEvent(0)];
    var s1 := Step(Initial(), InitAudioEvent, false);
    var s2 := Step(s1, PlayEvent("A4"), false);
    var s3 := Step(s2, StopEvent("A4"), false);
    var s4 := Step(s3, StopAllEvent, false);
    var s5 := Step(s4, PlayEvent("A4"), false);
    assert s5.oscillators == map["A4" := 1] && s5.onEnded == map[0 := "A4"];
    assert s5.sounding == {0, 1} && s5.stopping == {0};
    var s6 := Step(s5, EndedEvent(0), false);
    assert s6.oscillators == map[];
    assert Run(Initial(), script, false) == s6;
    var g6 := Step(s5, EndedEvent(0), true);
    assert g6.oscillators == s5.oscillators;
    assert Run(Initial(), script, true) == g6;
  }
}

/**
  The earlier sounds plugin (src version): the channel table holds the
  audio elements themselves, with no attribution and no listener registry.
  Two rules differ from the dist version: the looped no-op compares only
  the source, and an unparsable volume is reported without returning.
  Both are modelled as written and corrected; the corrected table is the
  class below.
*/
module SrcSounds {
  import opened Host
  import opened Sounds

  /** A JavaScript number as far as volumes go: finite, or NaN. */
  datatype Volume = Finite(value: real) | NotANumber

  /** The audio parts of a dist channel table. */
  function AudioOf(c: Channel): Audio
  {
    c.audio
  }

  function Audios(chs: map<string, Channel>): map<string, Audio>
  {
    map k | k in chs :: AudioOf(chs[k])
  }

  function NewAudio(volume: real): (a: Audio)
    ensures a == NewChannel(volume).audio
  {
    Audio("", false, volume, false)
  }

  // ---------------------------------------------------------------------
  // playSound

  /** The looped no-op as written: a looped request for the channel's
      current source does nothing, looping or not. */
  predicate SameSource(a: Audio, sound: string, looped: bool)
  {
    looped && a.src == sound
  }

  /** The looped no-op as intended: only a sound already looping. */
  predicate Looping(a: Audio, sound: string, looped: bool)
  {
    looped && a.src == sound && a.loop
  }

  function AudioPlayedAsWritten(chs: map<string, Audio>, defaultVolume: real, sound: string, channel: string,
                                looped: bool): map<string, Audio>
  {
    if sound == "" then chs
    else
      var ch := ChannelName(channel);
      if PlayThrows(chs.Keys, defaultVolume, sound, channel) then chs[ch := NewAudio(ELEMENT_VOLUME)]
      else
        var a := if ch in chs then chs[ch] else NewAudio(defaultVolume);
        if SameSource(a, sound, looped) then chs[ch := a] else chs[ch := StartedAudio(a, sound, looped)]
  }

  function AudioPlayed(chs: map<string, Audio>, defaultVolume: real, sound: string, channel: string,
                       looped: bool): map<string, Audio>
  {
    if sound == "" then chs
    else
      var ch := ChannelName(channel);
      if PlayThrows(chs.Keys, defaultVolume, sound, channel) then chs[ch := NewAudio(ELEMENT_VOLUME)]
      else
        var a := if ch in chs then chs[ch] else NewAudio(defaultVolume);
        if Looping(a, sound, looped) then chs[ch := a] else chs[ch := StartedAudio(a, sound, looped)]
  }

  /** The corrected rule is the dist rule on the audio elements: playing
      here and then looking at the elements is looking at the elements and
      then playing there. */
  lemma PlayedAgreesWithDist(chs: map<string, Channel>, defaultVolume: real, sound: string, channel: string,
                             looped: bool, source: Source, name: string)
    ensures AudioPlayed(Audios(chs), defaultVolume, sound, channel, looped) ==
            Audios(Sounds.Played(chs, defaultVolume, sound, channel, looped, source, name))
  {
    var l := AudioPlayed(Audios(chs), defaultVolume, sound, channel, looped);
    var r := Audios(Sounds.Played(chs, defaultVolume, sound, channel, looped, source, name));
    PlayRule(chs, defaultVolume, sound, channel, looped, source, name);
    assert l.Keys == r.Keys;
    forall k | k in l
      ensures l[k] == r[k]
    {
    }
  }

  /** The finding: a one-shot sound still on its channel and then asked for
      looped is left as it is, so it never loops; the corrected rule
      restarts it looping. */
  lemma OneShotNeverLoops(chs: map<string, Audio>, defaultVolume: real, sound: string, channel: string)
    requires sound != "" && ChannelName(channel) in chs
    requires chs[ChannelName(channel)].src == sound && !chs[ChannelName(channel)].loop
    ensures AudioPlayedAsWritten(chs, defaultVolume, sound, channel, true) == chs
    ensures !AudioPlayedAsWritten(chs, defaultVolume, sound, channel, true)[ChannelName(channel)].loop
    ensures AudioPlayed(chs, defaultVolume, sound, channel, true)[ChannelName(channel)].loop
  {
    var ch := ChannelName(channel);
    assert chs[ch := chs[ch]] == chs;
  }

  /** Everywhere else the two rules agree. */
  lemma PlayedAsWrittenAgrees(chs: map<string, Audio>, defaultVolume: real, sound: string, channel: string,
                              looped: bool)
    requires !(looped && ChannelName(channel) in chs && chs[ChannelName(channel)].src == sound &&
               !chs[ChannelName(channel)].loop)
    ensures AudioPlayedAsWritten(chs, defaultVolume, sound, channel, looped) ==
            AudioPlayed(chs, defaultVolume, sound, channel, looped)
  {
  }

  // ---------------------------------------------------------------------
  // stopSound and setSoundVolume

  function SilencedAll(chs: map<string, Audio>): map<string, Audio>
  {
    map k | k in chs :: Silenced(chs[k])
  }

  function AudioStopped(chs: map<string, Audio>, channel: string): map<string, Audio>
  {
    if channel == "" then SilencedAll(chs)
    else if channel in chs then chs[channel := Silenced(chs[channel])]
    else chs
  }

  /** Stopping here is the dist rule on the elements. */
  lemma StoppedAgreesWithDist(chs: map<string, Channel>, channel: string)
    ensures AudioStopped(Audios(chs), channel) == Audios(Sounds.Stopped(chs, channel))
  {
    var l := AudioStopped(Audios(chs), channel);
    var r := Audios(Sounds.Stopped(chs, channel));
    StopRule(chs, channel);
    assert l.Keys == r.Keys;
    forall k | k in l
      ensures l[k] == r[k]
    {
    }
  }

  function AllWithVolume(chs: map<string, Audio>, v: real): map<string, Audio>
  {
    map k | k in chs :: WithVolume(chs[k], v)
  }

  /** The table and default volume as the plugin keeps them. */
  datatype State = State(channels: map<string, Audio>, defaultVolume: Volume)

  /** A state and whether the step threw: assigning NaN to an audio
      element's volume throws a TypeError, after whatever was already
      done. */
  datatype Outcome = Outcome(state: State, thrown: bool)

  /** setSoundVolume with a number: the clamped value on one channel
      (created when missing), or on the default and every channel. */
  function VolumeSet(s: State, v: real, channel: string): State
  {
    if channel == "" then State(AllWithVolume(s.channels, Clamp(v)), Finite(Clamp(v)))
    else
      var a := if channel in s.channels then s.channels[channel] else NewAudio(ELEMENT_VOLUME);
      State(s.channels[channel := WithVolume(a, Clamp(v))], s.defaultVolume)
  }

  /** setSoundVolume as written, with parseFloat's result (None for NaN):
      NaN is only logged, so on one channel the channel is created and the
      assignment throws; on all channels NaN becomes the default and the
      first channel's assignment throws. */
  function VolumeSetAsWritten(s: State, volume: Option<real>, channel: string): Outcome
  {
    if volume.Some? then Outcome(VolumeSet(s, volume.value, channel), false)
    else if channel == "" then Outcome(State(s.channels, NotANumber), |s.channels| > 0)
    else
      var a := if channel in s.channels then s.channels[channel] else NewAudio(ELEMENT_VOLUME);
      Outcome(State(s.channels[channel := a], s.defaultVolume), true)
  }

  /** setSoundVolume as intended (the dist rule): NaN changes nothing. */
  function VolumeSetChecked(s: State, volume: Option<real>, channel: string): State
  {
    if volume.Some? then VolumeSet(s, volume.value, channel) else s
  }

  /** playSound as written, from a state whose default may be NaN: a new
      channel is stored before its volume is assigned, so a NaN default, or
      one outside [0, 1], leaves it stored at the element's own volume and
      throws before any sound is set. */
  function PlayedFrom(s: State, sound: string, channel: string, looped: bool): Outcome
  {
    var ch := ChannelName(channel);
    if sound != "" && ch !in s.channels && s.defaultVolume.NotANumber? then
      Outcome(State(s.channels[ch := NewAudio(ELEMENT_VOLUME)], s.defaultVolume), true)
    else
      var d := if s.defaultVolume.Finite? then s.defaultVolume.value else ELEMENT_VOLUME;
      Outcome(State(AudioPlayedAsWritten(s.channels, d, sound, channel, looped), s.defaultVolume),
              PlayThrows(s.channels.Keys, d, sound, channel))
  }

  /** The finding: after an unparsable volume for all channels, the next
      sound on a new channel does not play: the call throws and leaves the
      channel silent at full volume.  With the check in place the same
      sound plays at the configured default, when that default is one an
      element accepts. */
  lemma NaNVolumeSilencesNewChannel(chs: map<string, Audio>, d: real, sound: string, channel: string)
    requires sound != "" && ChannelName(channel) !in chs
    ensures var after := VolumeSetAsWritten(State(chs, Finite(d)), None, "");
            after.state.defaultVolume == NotANumber &&
            var played := PlayedFrom(after.state, sound, channel, false);
            played.thrown && played.state.channels[ChannelName(channel)] == NewAudio(ELEMENT_VOLUME)
    ensures var kept := VolumeSetChecked(State(chs, Finite(d)), None, "");
            kept == State(chs, Finite(d)) &&
            var played := PlayedFrom(kept, sound, channel, false);
            played.thrown == !InRange(d) &&
            (InRange(d) ==> played.state.channels[ChannelName(channel)] == Audio(sound, false, d, true))
  {
  }

  /** With a number, both versions do the same and never throw. */
  lemma VolumeSetAgrees(s: State, v: real, channel: string)
    ensures VolumeSetAsWritten(s, Some(v), channel) == Outcome(VolumeSetChecked(s, Some(v), channel), false)
  {
  }

  /** The checked rule keeps the default a number: from a finite default,
      every volume call leaves a finite default; a number for all
      channels puts every channel and the default at its clamped value. */
  lemma VolumeSetFinite(s: State, volume: Option<real>, channel: string)
    requires s.defaultVolume.Finite?
    ensures var r := VolumeSetChecked(s, volume, channel);
            r.defaultVolume.Finite? &&
            (volume.Some? && channel == "" ==>
               r.defaultVolume == Finite(Clamp(volume.value)) && r.channels.Keys == s.channels.Keys &&
               forall k :: k in r.channels ==> r.channels[k].volume == Clamp(volume.value))
  {
  }

  // ---------------------------------------------------------------------
  // The plugin's state, with both corrections

  class SrcPlayback {
    var channels: map<string, Audio>
    var defaultVolume: real

    constructor Start(config: Option<real>)
      ensures channels == map[] && defaultVolume == StartVolume(config)
    {
      channels := map[];
      defaultVolume := StartVolume(config);
    }

    /** playSound; `thrown` tells whether the volume assignment threw. */
    method PlaySound(sound: string, channel: string, looped: bool) returns (thrown: bool)
      modifies this
      ensures channels == AudioPlayed(old(channels), defaultVolume, sound, channel, looped)
      ensures thrown == PlayThrows(old(channels).Keys, defaultVolume, sound, channel)
      ensures defaultVolume == old(defaultVolume)
    {
      thrown := false;
      if sound == "" {
        return;
      }
      var ch := ChannelName(channel);
      if ch !in channels {
        channels := channels[ch := NewAudio(ELEMENT_VOLUME)];
        if !InRange(defaultVolume) {
          thrown := true;
          return;
        }
        channels := channels[ch := WithVolume(channels[ch], defaultVolume)];
      }
      if looped && channels[ch].src == sound && channels[ch].loop {
        return;
      }
      channels := channels[ch := StartedAudio(channels[ch], sound, looped)];
    }

    /** PLAY_SOUND: no check that the asset exists; the host's object URL
        for it (a parameter) is played. */
    method PlaySoundScript(sound: string, channel: string, looped: bool, look: Lookup,
                           objectUrl: string -> string) returns (thrown: bool)
      modifies this
      ensures channels == AudioPlayed(old(channels), defaultVolume, objectUrl(AssetId(sound, look)), channel, looped)
      ensures thrown == PlayThrows(old(channels).Keys, defaultVolume, objectUrl(AssetId(sound, look)), channel)
      ensures defaultVolume == old(defaultVolume)
    {
      var assetId := look.fieldOrLibrary;
      if assetId == "" {
        assetId := sound;
      }
      thrown := PlaySound(objectUrl(assetId), channel, looped);
    }

    method StopSound(channel: string)
      modifies this
      ensures channels == AudioStopped(old(channels), channel)
      ensures defaultVolume == old(defaultVolume)
    {
      if channel != "" {
        if channel !in channels {
          return;
        }
        channels := channels[channel := Silenced(channels[channel])];
      } else {
        var todo := channels.Keys;
        while todo != {}
          invariant todo <= old(channels).Keys && channels.Keys == old(channels).Keys
          invariant forall k :: k in channels && k !in todo ==> channels[k] == Silenced(old(channels)[k])
          invariant forall k :: k in todo ==> channels[k] == old(channels)[k]
          invariant defaultVolume == old(defaultVolume)
          decreases todo
        {
          var k :| k in todo;
          channels := channels[k := Silenced(channels[k])];
          todo := todo - {k};
        }
      }
    }

    method SetSoundVolume(volume: Option<real>, channel: string)
      modifies this
      ensures State(channels, Finite(defaultVolume)) ==
              VolumeSetChecked(State(old(channels), Finite(old(defaultVolume))), volume, channel)
    {
      if volume.None? {
        return;
      }
      var v := Clamp(volume.value);
      if channel != "" {
        var a := if channel in channels then channels[channel] else NewAudio(ELEMENT_VOLUME);
        channels := channels[channel := WithVolume(a, v)];
      } else {
        defaultVolume := v;
        var todo := channels.Keys;
        while todo != {}
          invariant todo <= old(channels).Keys && channels.Keys == old(channels).Keys
          invariant forall k :: k in channels && k !in todo ==> channels[k] == WithVolume(old(channels)[k], v)
          invariant forall k :: k in todo ==> channels[k] == old(channels)[k]
          invariant defaultVolume == v
          decreases todo
        {
          var k :| k in todo;
          channels := channels[k := WithVolume(channels[k], v)];
          todo := todo - {k};
        }
      }
    }
  }

  // ---------------------------------------------------------------------
  // The touch-sound behaviour

  /** The src behaviour: a file or text field with data; a text field
      must also name a library field with data; PLAY_SOUND gets the field's
      data rather than the field name. */
  function TouchSound(field: Option<TouchField>, libraryField: Option<TouchField>): (r: Option<string>)
    ensures r.Some? <==> field.Some? && (field.value.kind == "file" || field.value.kind == "text") &&
                         field.value.data != "" &&
                         (field.value.kind == "text" ==> libraryField.Some? && libraryField.value.data != "")
    ensures r.Some? ==> r.value == field.value.data
  {
    if field.None? || (field.value.kind != "file" && field.value.kind != "text") then None
    else if field.value.data == "" then None
    else if field.value.kind == "text" && (libraryField.None? || libraryField.value.data == "") then None
    else Some(field.value.data)
  }

  /** The src behaviour plays exactly when the dist one does, except that
      a text field also needs its library field. */
  lemma TouchSoundStricter(field: Option<TouchField>, libraryField: Option<TouchField>)
    ensures TouchSound(field, libraryField).Some? ==> Sounds.TouchSound(field).Some?
    ensures Sounds.TouchSound(field).Some? && field.value.kind == "file" ==> TouchSound(field, libraryField).Some?
  {
  }
}

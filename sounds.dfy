/**
  The sounds plugin (dist version): named channels, each an audio element
  plus the event and field name the sound came from and the sound-end
  listeners attached to it.  PLAY_SOUND resolves a sound name to an asset
  and an attribution; playSound, stopSound and setSoundVolume update the
  channel table in place; addOnSoundEnd and removeOnSoundEnd keep the
  listener registry.
*/
module Sounds {
  import opened Host

  const DEFAULT_SOUND_CHANNEL := "main"

  /** The volume a freshly created audio element starts with. */
  const ELEMENT_VOLUME: real := 1.0

  /** The parts of an audio element the plugin reads and writes; `src` is
      "" once the attribute is removed, and `playing` is whether play()
      was the last of play() and pause() to be called. */
  datatype Audio = Audio(src: string, loop: bool, volume: real, playing: bool)

  /** Where a sound was found: the library event, the event whose script
      played it, or nothing yet. */
  datatype Source = Unset | Library | Current

  datatype Channel = Channel(audio: Audio, source: Source, name: string, listeners: set<nat>)

  /** What ADD_ON_SOUND_END returns: the channel and the listener. */
  datatype Handle = Handle(channel: string, listener: nat)

  function NewChannel(volume: real): (c: Channel)
    ensures c.audio.src == "" && !c.audio.loop && !c.audio.playing && c.audio.volume == volume
    ensures c.source == Unset && c.listeners == {}
  {
    Channel(Audio("", false, volume, false), Unset, "", {})
  }

  /** `channel ||= 'main'`: an absent (empty) channel name means "main". */
  function ChannelName(channel: string): (name: string)
    ensures name != ""
    ensures channel != "" ==> name == channel
  {
    if channel == "" then DEFAULT_SOUND_CHANNEL else channel
  }

  /** `Math.min(Math.max(v, 0), 1)`. */
  function Clamp(v: real): (r: real)
    ensures 0.0 <= r <= 1.0
    ensures 0.0 <= v <= 1.0 ==> r == v
    ensures v < 0.0 ==> r == 0.0
    ensures v > 1.0 ==> r == 1.0
  {
    if v < 0.0 then 0.0 else if v > 1.0 then 1.0 else v
  }

  /** A volume an audio element accepts; assigning any other number
      throws an IndexSizeError. */
  predicate InRange(v: real)
  {
    0.0 <= v <= 1.0
  }

  /** playSound on a channel that does not exist yet, when the default
      volume is one the element refuses: the new element is stored, and
      then the volume assignment throws before any sound is set. */
  predicate PlayThrows(keys: set<string>, defaultVolume: real, sound: string, channel: string)
  {
    sound != "" && ChannelName(channel) !in keys && !InRange(defaultVolume)
  }

  /** `parseFloat(config) || 0`: a missing or unparsable number gives 0. */
  function StartVolume(config: Option<real>): real
  {
    if config.Some? then config.value else 0.0
  }

  // ---------------------------------------------------------------------
  // playSound

  /** An audio element after `src` and `loop` are set and play() is
      called. */
  function StartedAudio(a: Audio, sound: string, looped: bool): Audio
  {
    a.(src := sound, loop := looped, playing := true)
  }

  /** pause(), removeAttribute('src'), loop = false. */
  function Silenced(a: Audio): Audio
  {
    a.(src := "", loop := false, playing := false)
  }

  function WithVolume(a: Audio, v: real): Audio
  {
    a.(volume := v)
  }

  /** A channel after the sound is set up on it and play() is called. */
  function Started(c: Channel, sound: string, looped: bool, source: Source, name: string): Channel
  {
    c.(audio := StartedAudio(c.audio, sound, looped), source := source, name := name)
  }

  /** A looped request for the sound the channel already loops. */
  predicate AlreadyLooping(c: Channel, sound: string, looped: bool)
  {
    looped && c.audio.src == sound && c.audio.loop
  }

  /** The channel table after `playSound`. */
  function Played(chs: map<string, Channel>, defaultVolume: real, sound: string, channel: string,
                  looped: bool, source: Source, name: string): map<string, Channel>
  {
    if sound == "" then chs
    else
      var ch := ChannelName(channel);
      if PlayThrows(chs.Keys, defaultVolume, sound, channel) then chs[ch := NewChannel(ELEMENT_VOLUME)]
      else
        var c := if ch in chs then chs[ch] else NewChannel(defaultVolume);
        if AlreadyLooping(c, sound, looped) then chs[ch := c]
        else chs[ch := Started(c, sound, looped, source, name)]
  }

  /** playSound: an empty sound changes nothing; a missing channel with a
      default volume outside [0, 1] is created silent at the element's own
      volume and nothing plays; otherwise the named channel (created at the
      default volume when missing) is interrupted and takes the new sound,
      loop flag and attribution, unless it already loops that very sound;
      its volume and listeners are kept, and every other channel is
      untouched. */
  lemma PlayRule(chs: map<string, Channel>, defaultVolume: real, sound: string, channel: string,
                 looped: bool, source: Source, name: string)
    ensures var r, ch := Played(chs, defaultVolume, sound, channel, looped, source, name), ChannelName(channel);
            (sound == "" ==> r == chs) &&
            (PlayThrows(chs.Keys, defaultVolume, sound, channel) ==> r == chs[ch := NewChannel(ELEMENT_VOLUME)]) &&
            (sound != "" && !PlayThrows(chs.Keys, defaultVolume, sound, channel) ==>
               ch in r && r.Keys == chs.Keys + {ch} &&
               (forall k :: k in chs && k != ch ==> r[k] == chs[k]) &&
               r[ch].audio.volume == (if ch in chs then chs[ch].audio.volume else defaultVolume) &&
               r[ch].listeners == (if ch in chs then chs[ch].listeners else {}) &&
               (ch in chs && AlreadyLooping(chs[ch], sound, looped) ==> r[ch] == chs[ch]) &&
               (!(ch in chs && AlreadyLooping(chs[ch], sound, looped)) ==>
                  r[ch].audio.src == sound && r[ch].audio.loop == looped && r[ch].audio.playing &&
                  r[ch].source == source && r[ch].name == name))
  {
    if sound != "" && ChannelName(channel) !in chs && InRange(defaultVolume) {
      assert !AlreadyLooping(NewChannel(defaultVolume), sound, looped);
    }
  }

  /** Asking again for a looped sound is a no-op: the loop is not
      restarted (unless the first request threw, see ThrowThenPlays). */
  lemma ReplayLooped(chs: map<string, Channel>, defaultVolume: real, sound: string, channel: string,
                     source: Source, name: string, source2: Source, name2: string)
    requires !PlayThrows(chs.Keys, defaultVolume, sound, channel)
    ensures var once := Played(chs, defaultVolume, sound, channel, true, source, name);
            Played(once, defaultVolume, sound, channel, true, source2, name2) == once
  {
    var once := Played(chs, defaultVolume, sound, channel, true, source, name);
    if sound != "" {
      var ch := ChannelName(channel);
      PlayRule(chs, defaultVolume, sound, channel, true, source, name);
      assert AlreadyLooping(once[ch], sound, true);
      assert once[ch := once[ch]] == once;
    }
  }

  /** After a request that threw, the channel exists, so the same request
      again plays, at the element's own volume. */
  lemma ThrowThenPlays(chs: map<string, Channel>, defaultVolume: real, sound: string, channel: string,
                       looped: bool, source: Source, name: string)
    requires PlayThrows(chs.Keys, defaultVolume, sound, channel)
    ensures var once := Played(chs, defaultVolume, sound, channel, looped, source, name);
            var twice := Played(once, defaultVolume, sound, channel, looped, source, name);
            var ch := ChannelName(channel);
            !PlayThrows(once.Keys, defaultVolume, sound, channel) &&
            once[ch].audio == Audio("", false, ELEMENT_VOLUME, false) &&
            twice[ch].audio == Audio(sound, looped, ELEMENT_VOLUME, true) &&
            twice[ch].source == source && twice[ch].name == name
  {
    var once := Played(chs, defaultVolume, sound, channel, looped, source, name);
    var ch := ChannelName(channel);
    PlayRule(chs, defaultVolume, sound, channel, looped, source, name);
    assert ch in once && once[ch] == NewChannel(ELEMENT_VOLUME);
    PlayRule(once, defaultVolume, sound, channel, looped, source, name);
  }

  // ---------------------------------------------------------------------
  // stopSound

  function StopChannel(c: Channel): Channel
  {
    c.(audio := Silenced(c.audio))
  }

  function StopAll(chs: map<string, Channel>): map<string, Channel>
  {
    map k | k in chs :: StopChannel(chs[k])
  }

  /** The channel table after `stopSound`: one named channel, or all of
      them when no channel is given. */
  function Stopped(chs: map<string, Channel>, channel: string): map<string, Channel>
  {
    if channel == "" then StopAll(chs)
    else if channel in chs then chs[channel := StopChannel(chs[channel])]
    else chs
  }

  /** stopSound never creates a channel; every channel it reaches is left
      silent with no source and no loop, its volume, attribution and
      listeners kept; the rest are untouched; stopping twice is stopping
      once. */
  lemma StopRule(chs: map<string, Channel>, channel: string)
    ensures var r := Stopped(chs, channel);
            r.Keys == chs.Keys &&
            (forall k :: k in chs ==>
               if channel == "" || k == channel then
                 r[k].audio == Audio("", false, chs[k].audio.volume, false) &&
                 r[k].source == chs[k].source && r[k].name == chs[k].name &&
                 r[k].listeners == chs[k].listeners
               else r[k] == chs[k]) &&
            Stopped(r, channel) == r
  {
    var r := Stopped(chs, channel);
    if channel == "" {
      assert StopAll(r) == r;
    } else if channel in chs {
      assert r[channel := StopChannel(r[channel])] == r;
    }
  }

  // ---------------------------------------------------------------------
  // setSoundVolume

  function AtVolume(c: Channel, v: real): Channel
  {
    c.(audio := WithVolume(c.audio, v))
  }

  function AllAtVolume(chs: map<string, Channel>, v: real): map<string, Channel>
  {
    map k | k in chs :: AtVolume(chs[k], v)
  }

  /** The channel table after `setSoundVolume` with a number. */
  function VolumeChannels(chs: map<string, Channel>, v: real, channel: string): map<string, Channel>
  {
    if channel == "" then AllAtVolume(chs, Clamp(v))
    else
      var c := if channel in chs then chs[channel] else NewChannel(ELEMENT_VOLUME);
      chs[channel := AtVolume(c, Clamp(v))]
  }

  /** The default volume after `setSoundVolume` with a number. */
  function VolumeDefault(defaultVolume: real, v: real, channel: string): real
  {
    if channel == "" then Clamp(v) else defaultVolume
  }

  /** Every volume of the table is in [0, 1]. */
  predicate Audible(chs: map<string, Channel>)
  {
    forall k :: k in chs ==> 0.0 <= chs[k].audio.volume <= 1.0
  }

  /** setSoundVolume: the clamped value goes to the named channel only
      (created when missing), or to the default and every existing channel;
      nothing but volumes changes, and the table stays audible. */
  lemma VolumeRule(chs: map<string, Channel>, v: real, channel: string)
    ensures var r := VolumeChannels(chs, v, channel);
            r.Keys == chs.Keys + (if channel == "" then {} else {channel}) &&
            (forall k :: k in r ==>
               var before := if k in chs then chs[k] else NewChannel(ELEMENT_VOLUME);
               if channel == "" || k == channel then r[k] == AtVolume(before, Clamp(v))
               else r[k] == before) &&
            (Audible(chs) ==> Audible(r))
  {
  }

  /** Playing keeps the table audible, whatever the default volume: an
      out-of-range default never reaches an element. */
  lemma PlayAudible(chs: map<string, Channel>, defaultVolume: real, sound: string, channel: string,
                    looped: bool, source: Source, name: string)
    requires Audible(chs)
    ensures Audible(Played(chs, defaultVolume, sound, channel, looped, source, name))
  {
    PlayRule(chs, defaultVolume, sound, channel, looped, source, name);
  }

  // ---------------------------------------------------------------------
  // addOnSoundEnd / removeOnSoundEnd

  function Listened(chs: map<string, Channel>, ch: string, id: nat): map<string, Channel>
  {
    var c := if ch in chs then chs[ch] else NewChannel(ELEMENT_VOLUME);
    chs[ch := c.(listeners := c.listeners + {id})]
  }

  function Unlistened(chs: map<string, Channel>, h: Handle): map<string, Channel>
  {
    if h.channel in chs then chs[h.channel := chs[h.channel].(listeners := chs[h.channel].listeners - {h.listener})]
    else chs
  }

  /** No channel holds the listener. */
  predicate Unused(chs: map<string, Channel>, id: nat)
  {
    forall k :: k in chs ==> id !in chs[k].listeners
  }

  /** Removing the listener just added takes every channel back to what it
      was, except that the channel addOnSoundEnd created stays. */
  lemma ListenRoundTrip(chs: map<string, Channel>, channel: string, id: nat)
    requires Unused(chs, id)
    ensures var ch := ChannelName(channel);
            var r := Unlistened(Listened(chs, ch, id), Handle(ch, id));
            (ch in chs ==> r == chs) &&
            (ch !in chs ==> r == chs[ch := NewChannel(ELEMENT_VOLUME)])
  {
    var ch := ChannelName(channel);
    var c := if ch in chs then chs[ch] else NewChannel(ELEMENT_VOLUME);
    assert c.listeners + {id} - {id} == c.listeners;
    if ch in chs {
      assert chs[ch := c] == chs;
    }
  }

  // ---------------------------------------------------------------------
  // PLAY_SOUND

  /** What the host finds for a sound name: FIELD_OR_LIBRARY's result and
      the current event's text and file fields of that name ("" when
      absent). */
  datatype Lookup = Lookup(fieldOrLibrary: string, textField: string, fileField: string)

  /** The asset to play: FIELD_OR_LIBRARY's result, or the name itself. */
  function AssetId(sound: string, look: Lookup): (id: string)
    ensures id == sound || id == look.fieldOrLibrary
  {
    if look.fieldOrLibrary != "" then look.fieldOrLibrary else sound
  }

  /** Who played the sound and under which field name. */
  function Attribution(sound: string, look: Lookup): (Source, string)
  {
    if look.textField != "" then (Library, look.textField)
    else if look.fileField == "" then (Library, sound)
    else (Current, sound)
  }

  /** A text field names a library field; a sound with no file field on
      the event must come from the library; only a file field on the event
      itself is attributed to the event. */
  lemma AttributionRule(sound: string, look: Lookup)
    ensures var (source, name) := Attribution(sound, look);
            (source == Current <==> look.textField == "" && look.fileField != "") &&
            (source == Library || source == Current) &&
            name == (if look.textField != "" then look.textField else sound)
  {
  }

  // ---------------------------------------------------------------------
  // The plugin's state

  class Playback {
    var channels: map<string, Channel>
    var defaultVolume: real
    /** Identity of the next sound-end listener closure. */
    var nextListener: nat

    /** The `start` hook: no channels, and the configured default volume. */
    constructor Start(config: Option<real>)
      ensures channels == map[] && defaultVolume == StartVolume(config) && nextListener == 0
      ensures Valid()
    {
      channels := map[];
      defaultVolume := StartVolume(config);
      nextListener := 0;
    }

    predicate Valid()
      reads this
    {
      forall k :: k in channels ==> forall id :: id in channels[k].listeners ==> id < nextListener
    }

    /** playSound; `thrown` tells whether the volume assignment threw. */
    method PlaySound(sound: string, channel: string, looped: bool, source: Source, name: string)
      returns (thrown: bool)
      requires Valid()
      modifies this
      ensures channels == Played(old(channels), defaultVolume, sound, channel, looped, source, name)
      ensures thrown == PlayThrows(old(channels).Keys, defaultVolume, sound, channel)
      ensures defaultVolume == old(defaultVolume) && nextListener == old(nextListener)
      ensures Valid()
    {
      thrown := false;
      if sound == "" {
        return;
      }
      var ch := ChannelName(channel);
      if ch !in channels {
        channels := channels[ch := NewChannel(ELEMENT_VOLUME)];
        if !InRange(defaultVolume) {
          thrown := true;
          return;
        }
        channels := channels[ch := AtVolume(channels[ch], defaultVolume)];
      }
      var c := channels[ch];
      if looped && c.audio.src == sound && c.audio.loop {
        return;
      }
      channels := channels[ch := Started(c, sound, looped, source, name)];
    }

    /** PLAY_SOUND: an asset the resources do not hold is reported and
        nothing plays; otherwise its object URL is played on the channel
        with the attribution. */
    method PlaySoundScript(sound: string, channel: string, looped: bool, look: Lookup,
                           resources: map<string, string>) returns (thrown: bool)
      requires Valid()
      modifies this
      ensures thrown == (AssetId(sound, look) in resources &&
                         PlayThrows(old(channels).Keys, defaultVolume, resources[AssetId(sound, look)], channel))
      ensures AssetId(sound, look) !in resources ==> channels == old(channels)
      ensures AssetId(sound, look) in resources ==>
                channels == Played(old(channels), defaultVolume, resources[AssetId(sound, look)], channel,
                                   looped, Attribution(sound, look).0, Attribution(sound, look).1)
      ensures defaultVolume == old(defaultVolume) && nextListener == old(nextListener)
      ensures Valid()
    {
      var assetId := look.fieldOrLibrary;
      if assetId == "" {
        assetId := sound;
      }
      if assetId !in resources {
        return false;
      }
      var source: Source, name: string;
      if look.textField != "" {
        source, name := Library, look.textField;
      } else if look.fileField == "" {
        source, name := Library, sound;
      } else {
        source, name := Current, sound;
      }
      thrown := PlaySound(resources[assetId], channel, looped, source, name);
    }

    method StopSound(channel: string)
      requires Valid()
      modifies this
      ensures channels == Stopped(old(channels), channel)
      ensures defaultVolume == old(defaultVolume) && nextListener == old(nextListener)
      ensures Valid()
    {
      if channel != "" {
        if channel !in channels {
          return;
        }
        channels := channels[channel := StopChannel(channels[channel])];
      } else {
        var todo := channels.Keys;
        while todo != {}
          invariant todo <= old(channels).Keys && channels.Keys == old(channels).Keys
          invariant forall k :: k in channels && k !in todo ==> channels[k] == StopChannel(old(channels)[k])
          invariant forall k :: k in todo ==> channels[k] == old(channels)[k]
          invariant defaultVolume == old(defaultVolume) && nextListener == old(nextListener)
          decreases todo
        {
          var k :| k in todo;
          channels := channels[k := StopChannel(channels[k])];
          todo := todo - {k};
        }
      }
    }

    /** setSoundVolume with parseFloat's result: None stands for NaN,
        which is reported and changes nothing. */
    method SetSoundVolume(volume: Option<real>, channel: string)
      requires Valid()
      modifies this
      ensures volume.None? ==> channels == old(channels) && defaultVolume == old(defaultVolume)
      ensures volume.Some? ==> channels == VolumeChannels(old(channels), volume.value, channel) &&
                               defaultVolume == VolumeDefault(old(defaultVolume), volume.value, channel)
      ensures nextListener == old(nextListener)
      ensures Valid()
    {
      if volume.None? {
        return;
      }
      var v := Clamp(volume.value);
      if channel != "" {
        if channel !in channels {
          channels := channels[channel := NewChannel(ELEMENT_VOLUME)];
        }
        channels := channels[channel := AtVolume(channels[channel], v)];
      } else {
        defaultVolume := v;
        var todo := channels.Keys;
        while todo != {}
          invariant todo <= old(channels).Keys && channels.Keys == old(channels).Keys
          invariant forall k :: k in channels && k !in todo ==> channels[k] == AtVolume(old(channels)[k], v)
          invariant forall k :: k in todo ==> channels[k] == old(channels)[k]
          invariant defaultVolume == v && nextListener == old(nextListener)
          decreases todo
        {
          var k :| k in todo;
          channels := channels[k := AtVolume(channels[k], v)];
          todo := todo - {k};
        }
      }
    }

    method AddOnSoundEnd(channel: string) returns (h: Handle)
      requires Valid()
      modifies this
      ensures h == Handle(ChannelName(channel), old(nextListener))
      ensures channels == Listened(old(channels), h.channel, h.listener) && Unused(old(channels), h.listener)
      ensures nextListener == old(nextListener) + 1 && defaultVolume == old(defaultVolume)
      ensures Valid()
    {
      var ch := ChannelName(channel);
      if ch !in channels {
        channels := channels[ch := NewChannel(ELEMENT_VOLUME)];
      }
      h := Handle(ch, nextListener);
      channels := channels[ch := channels[ch].(listeners := channels[ch].listeners + {nextListener})];
      nextListener := nextListener + 1;
    }

    method RemoveOnSoundEnd(h: Handle)
      requires Valid()
      modifies this
      ensures channels == Unlistened(old(channels), h)
      ensures nextListener == old(nextListener) && defaultVolume == old(defaultVolume)
      ensures Valid()
    {
      if h.channel !in channels {
        return;
      }
      channels := channels[h.channel := channels[h.channel].(listeners := channels[h.channel].listeners - {h.listener})];
    }
  }

  // ---------------------------------------------------------------------
  // The touch-sound behaviour

  /** The event's `touch-sound` field, if any ("" data is falsy). */
  datatype TouchField = TouchField(kind: string, data: string)

  /** The name the behaviour passes to PLAY_SOUND, if it plays at all. */
  function TouchSound(field: Option<TouchField>): (r: Option<string>)
    ensures r.Some? <==> field.Some? && (field.value.kind == "file" || field.value.kind == "text") &&
                         field.value.data != ""
    ensures r.Some? ==> r.value == "touch-sound"
  {
    if field.None? || (field.value.kind != "file" && field.value.kind != "text") then None
    else if field.value.data == "" then None
    else Some("touch-sound")
  }
}

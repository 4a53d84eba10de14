/** Sound dialogue (dist/sound-dialogue.js): `&&X&&` in a dialogue becomes
    a zero-width glyph styled `sound`; when the glyph is shown, the sound
    named X (a field of the running event or of the library) plays on the
    `dialogue` channel, which stops when the dialogue closes. */
module SoundDialogue {
  import opened Host
  import opened Markup

  const MARKER: char := '&'
  const SOUND: Style := Style("sound", false)
  /** The sound channel dialogue sounds play on. */
  const CHANNEL: string := "dialogue"

  /** `soundFakedownToTag` as a function of the text. */
  function SoundTagged(text: string): string
  {
    if MatchCount(text, MARKER) % 2 != 0 then text else Tagged(text, MARKER, SOUND)
  }

  /** Text with an odd number of markers, and text without markers, is
      left as it is; otherwise no marker remains and rewriting again
      changes nothing. */
  lemma SoundTaggedRule(text: string)
    requires NoTriple(text, MARKER)
    ensures MatchCount(text, MARKER) % 2 != 0 ==> SoundTagged(text) == text
    ensures MarkerFree(text, MARKER) ==> SoundTagged(text) == text
    ensures MatchCount(text, MARKER) % 2 == 0 ==>
              MarkerFree(SoundTagged(text), MARKER) && SoundTagged(SoundTagged(text)) == SoundTagged(text)
  {
    assert Compatible(SOUND, MARKER);
    if MatchCount(text, MARKER) % 2 == 0 {
      TaggedMarkerFree(text, MARKER, SOUND);
      TaggedIdempotent(text, MARKER, SOUND);
      MatchCountFree(SoundTagged(text));
    }
    if MarkerFree(text, MARKER) {
      TaggedOfFree(text, MARKER, SOUND);
    }
  }

  /** Marker-free text has no marker to count. */
  lemma {:induction false} MatchCountFree(s: string)
    requires MarkerFree(s, MARKER)
    ensures MatchCount(s, MARKER) == 0
    decreases |s|
  {
    if |s| >= 2 {
      assert !MarkerAt(s, MARKER, 0);
      assert MarkerFree(s[1..], MARKER) by {
        forall i | 0 <= i < |s[1..]| ensures !MarkerAt(s[1..], MARKER, i) {
          assert !MarkerAt(s, MARKER, i + 1);
        }
      }
      MatchCountFree(s[1..]);
    }
  }

  /** The `queue` splice (dist/sound-dialogue.js:49-56, 75-91): a font
      with neither character 0 nor 1 makes it throw with the font as it
      was; otherwise the rewritten script is queued. */
  method Queue(script: string, font: Font) returns (out: Result<string>)
    requires NoTriple(script, MARKER)
    modifies font
    ensures out.Ok? == WithEmptyChar(old(font.characters)).Ok?
    ensures out.Ok? ==> font.characters == WithEmptyChar(old(font.characters)).value && out.value == SoundTagged(script)
    ensures out.Err? ==> font.characters == old(font.characters)
  {
    var ok := font.AddEmptyChar();
    if !ok {
      return Err(WithEmptyChar(font.characters).message);
    }
    var rewritten, replaced := RewriteMarkers(script, MARKER, SOUND);
    out := Ok(rewritten);
  }

  /** A request to the host's `playSound`: the sound's asset and the
      channel. */
  datatype Play = Play(asset: string, channel: string)

  /** The sounds played for the page's `sound` style values, in order: a
      value plays only when it is non-empty and names a field of the
      running event or the library (`FIELD_OR_LIBRARY`) holding an
      asset. */
  function Plays(values: seq<string>, assets: map<string, string>): (ps: seq<Play>)
    ensures |ps| <= |values|
  {
    if values == [] then []
    else
      var v := values[|values| - 1];
      Plays(values[..|values| - 1], assets) +
      (if v != "" && v in assets && assets[v] != "" then [Play(assets[v], CHANNEL)] else [])
  }

  /** Every sound plays on the dialogue channel, and each one is the asset
      of a value in the page. */
  lemma {:induction false} PlaysRule(values: seq<string>, assets: map<string, string>)
    ensures forall p :: p in Plays(values, assets) ==> p.channel == CHANNEL && p.asset != ""
    ensures forall p :: p in Plays(values, assets) ==> exists v :: v in values && v in assets && assets[v] == p.asset
  {
    if values != [] {
      var init := values[..|values| - 1];
      PlaysRule(init, assets);
      forall p | p in Plays(values, assets)
        ensures exists v :: v in values && v in assets && assets[v] == p.asset
      {
        if p in Plays(init, assets) {
          var v :| v in init && v in assets && assets[v] == p.asset;
          assert v in values;
        } else {
          assert values[|values| - 1] in values;
        }
      }
    }
  }

  /** Unknown names and empty names play nothing. */
  lemma PlaysNothing(values: seq<string>, assets: map<string, string>)
    requires forall k :: 0 <= k < |values| ==> values[k] == "" || values[k] !in assets
    ensures Plays(values, assets) == []
  {
    if values != [] {
      PlaysNothing(values[..|values| - 1], assets);
    }
  }

  /** The sounds of two runs of values are those of each run, in order. */
  lemma {:induction false} PlaysConcat(values: seq<string>, more: seq<string>, assets: map<string, string>)
    ensures Plays(values + more, assets) == Plays(values, assets) + Plays(more, assets)
    decreases |more|
  {
    if more == [] {
      assert values + more == values;
    } else {
      var init := more[..|more| - 1];
      PlaysConcat(values, init, assets);
      assert (values + more)[..|values + more| - 1] == values + init;
      assert (values + more)[|values + more| - 1] == more[|more| - 1];
    }
  }

  /** One glyph: a visible glyph with a `sound` style plays its sound (if
      any) and loses the style. */
  method HandleGlyph(glyphs: array<Glyph>, i: nat, assets: map<string, string>) returns (played: seq<Play>)
    requires i < glyphs.Length
    modifies glyphs
    ensures glyphs[i] == Unstyled(old(glyphs[i]), SOUND.name)
    ensures forall k :: 0 <= k < glyphs.Length && k != i ==> glyphs[k] == old(glyphs[k])
    ensures played == Plays(StyleValues([old(glyphs[i])], SOUND.name), assets)
  {
    var g := glyphs[i];
    assert [g][..0] == [];
    played := [];
    if Styled(g, SOUND.name) {
      var name := g.styles[SOUND.name];
      assert [name][..0] == [];
      if name != "" && name in assets && assets[name] != "" {
        played := [Play(assets[name], CHANNEL)];
      }
      glyphs[i] := g.(styles := g.styles - {SOUND.name});
    }
  }

  /** The applyStyle hook (dist/sound-dialogue.js:59-72). `assets` is
      what `FIELD_OR_LIBRARY` finds for each name. */
  method ApplyStyle(glyphs: array<Glyph>, assets: map<string, string>) returns (played: seq<Play>)
    modifies glyphs
    ensures played == Plays(StyleValues(old(glyphs[..]), SOUND.name), assets)
    ensures forall i :: 0 <= i < glyphs.Length ==> glyphs[i] == Unstyled(old(glyphs[i]), SOUND.name)
  {
    ghost var before := glyphs[..];
    played := [];
    var i := 0;
    while i < glyphs.Length
      invariant 0 <= i <= glyphs.Length
      invariant played == Plays(StyleValues(before[..i], SOUND.name), assets)
      invariant forall k :: 0 <= k < i ==> glyphs[k] == Unstyled(before[k], SOUND.name)
      invariant forall k :: i <= k < glyphs.Length ==> glyphs[k] == before[k]
    {
      StyleValuesStep(before, i, SOUND.name);
      PlaysConcat(StyleValues(before[..i], SOUND.name), StyleValues([before[i]], SOUND.name), assets);
      var p := HandleGlyph(glyphs, i, assets);
      played := played + p;
      i := i + 1;
    }
    assert before[..glyphs.Length] == before;
  }

  /** The dialogue events after which the plugin acts. */
  datatype DialogueEvent = SetPage(hasPage: bool) | Cancel

  /** The channels stopped after the event: `dialogue` when a page change
      leaves no page, and on cancel (dist/sound-dialogue.js:94-101). */
  function StopsAfter(e: DialogueEvent): (chs: seq<string>)
    ensures chs == [] || chs == [CHANNEL]
  {
    match e
    case SetPage(hasPage) => if hasPage then [] else [CHANNEL]
    case Cancel => [CHANNEL]
  }

  /** The dialogue channel stops exactly when the dialogue closes. */
  lemma StopsWhenClosed(e: DialogueEvent)
    ensures StopsAfter(e) == [CHANNEL] <==> e == Cancel || e == SetPage(false)
  {
  }
}

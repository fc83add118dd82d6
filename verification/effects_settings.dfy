/** WPrefs.app/EffectsSettings.c: name/index lookups over the option tables,
    and what the panel loads from and stores to the defaults database. */
module EffectsSettings {
  import opened Wrappers
  import opened CText
  import opened Sentinel
  import opened Effects

  /** This file's own `compositor_index_supports_config`: Picom (1) and
      Compton (2), matched by name ignoring case. */
  function SupportsConfig(index: int): (r: bool)
    requires index < |CompositorOptions|
    ensures r <==> index == 1 || index == 2
  {
    if index < 0 || CompositorOptions[index].dbValue.None? then false
    else
      var name := CompositorOptions[index].dbValue.value;
      StrCaseCmp(name, "Picom") == 0 || StrCaseCmp(name, "Compton") == 0
  }

  /** `wPrefsClampTransitionEffectIndex`: the argument when it is an index of a
      transition effect, 0 otherwise. */
  function ClampTransitionEffectIndex(index: int): (r: nat)
    ensures r < TransitionCount
    ensures 0 <= index < TransitionCount ==> r == index
    ensures !(0 <= index < TransitionCount) ==> r == 0
  {
    TransitionTable();
    var max := LiveLength(TransitionEffects, IsTransitionEnd);
    if index < 0 || index >= max then 0 else index
  }

  /** Whether `s` names transition effect `i`, as `strcasecmp` decides. */
  predicate TransitionMatches(s: string, i: nat)
    requires i < TransitionCount
  {
    StrCaseCmp(s, TransitionName(i)) == 0
  }

  /** Whether `s` names compositor option `i`, as `strcasecmp` decides. */
  predicate CompositorMatches(s: string, i: nat)
    requires i < CompositorCount
  {
    StrCaseCmp(s, CompositorName(i)) == 0
  }

  /** The loop's test for one transition entry: the entry has a name and
      `strcasecmp` finds it equal to `s`. */
  function TransitionHit(s: string): TransitionEffect -> bool {
    (e: TransitionEffect) => e.dbValue.Some? && StrCaseCmp(s, e.dbValue.value) == 0
  }

  /** The loop's test for one compositor entry. */
  function CompositorHit(s: string): CompositorOption -> bool {
    (o: CompositorOption) => o.dbValue.Some? && StrCaseCmp(s, o.dbValue.value) == 0
  }

  lemma TransitionHits(s: string)
    ensures LiveLength(TransitionEffects, IsTransitionEnd) == TransitionCount
    ensures forall j :: 0 <= j < TransitionCount ==>
      (TransitionHit(s)(TransitionEffects[j]) <==> TransitionMatches(s, j))
  {
    TransitionTable();
  }

  lemma CompositorHits(s: string)
    ensures LiveLength(CompositorOptions, IsCompositorEnd) == CompositorCount
    ensures forall j :: 0 <= j < CompositorCount ==>
      (CompositorHit(s)(CompositorOptions[j]) <==> CompositorMatches(s, j))
  {
    CompositorTable();
  }

  /** `wPrefsGetTransitionEffectIndex`: the first effect the string names, or 0
      for NULL or a string that names none. */
  function GetTransitionEffectIndex(str: Option<string>): (r: nat)
    ensures r < TransitionCount
    ensures str.Some? && (exists i :: 0 <= i < TransitionCount && TransitionMatches(str.value, i)) ==>
      TransitionMatches(str.value, r) && forall j :: 0 <= j < r ==> !TransitionMatches(str.value, j)
    ensures str.None? || (forall i :: 0 <= i < TransitionCount ==> !TransitionMatches(str.value, i)) ==> r == 0
  {
    match str
    case None => 0
    case Some(s) =>
      TransitionHits(s);
      match FindLive(TransitionEffects, IsTransitionEnd, TransitionHit(s))
      case Some(i) => i
      case None => 0
  }

  /** `wPrefsGetCompositorIndex`: the first option the string names, or 0 for
      NULL or a string that names none. */
  function GetCompositorIndex(value: Option<string>): (r: nat)
    ensures r < CompositorCount
    ensures value.Some? && (exists i :: 0 <= i < CompositorCount && CompositorMatches(value.value, i)) ==>
      CompositorMatches(value.value, r) && forall j :: 0 <= j < r ==> !CompositorMatches(value.value, j)
    ensures value.None? || (forall i :: 0 <= i < CompositorCount ==> !CompositorMatches(value.value, i)) ==> r == 0
  {
    match value
    case None => 0
    case Some(s) =>
      CompositorHits(s);
      match FindLive(CompositorOptions, IsCompositorEnd, CompositorHit(s))
      case Some(i) => i
      case None => 0
  }

  /** Any spelling of an effect's stored name, in any letter case, reads back
      as that effect; in particular the name `StoreData` writes. */
  lemma TransitionIndexRoundTrip(s: string, i: nat)
    requires i < TransitionCount && CString(s) && EqualIgnoringCase(s, TransitionName(i))
    ensures GetTransitionEffectIndex(Some(s)) == i
  {
    NamesAreCStrings();
    StrCaseCmpZeroIff(s, TransitionName(i));
    assert TransitionMatches(s, i);
    var r := GetTransitionEffectIndex(Some(s));
    assert TransitionMatches(s, r);
    TransitionMatchUnique(s, r, i);
  }

  /** A NUL-free string names at most one transition effect. */
  lemma TransitionMatchUnique(s: string, r: nat, i: nat)
    requires r < TransitionCount && i < TransitionCount && CString(s)
    requires TransitionMatches(s, r) && TransitionMatches(s, i)
    ensures r == i
  {
    NamesAreCStrings();
    StrCaseCmpZeroIff(s, TransitionName(r));
    StrCaseCmpZeroIff(s, TransitionName(i));
    assert EqualIgnoringCase(TransitionName(r), TransitionName(i));
    NamesDistinct();
  }

  /** Any spelling of a compositor's stored name, in any letter case, reads
      back as that compositor; in particular the name `StoreData` writes. */
  lemma CompositorIndexRoundTrip(s: string, i: nat)
    requires i < CompositorCount && CString(s) && EqualIgnoringCase(s, CompositorName(i))
    ensures GetCompositorIndex(Some(s)) == i
  {
    NamesAreCStrings();
    StrCaseCmpZeroIff(s, CompositorName(i));
    assert CompositorMatches(s, i);
    var r := GetCompositorIndex(Some(s));
    assert CompositorMatches(s, r);
    CompositorMatchUnique(s, r, i);
  }

  /** A NUL-free string names at most one compositor option. */
  lemma CompositorMatchUnique(s: string, r: nat, i: nat)
    requires r < CompositorCount && i < CompositorCount && CString(s)
    requires CompositorMatches(s, r) && CompositorMatches(s, i)
    ensures r == i
  {
    NamesAreCStrings();
    StrCaseCmpZeroIff(s, CompositorName(r));
    StrCaseCmpZeroIff(s, CompositorName(i));
    assert EqualIgnoringCase(CompositorName(r), CompositorName(i));
    NamesDistinct();
  }

  /** `wPrefsDefaultCompositorPath`: "" for a negative index or the sentinel,
      otherwise the option's default configuration path. */
  function DefaultCompositorPath(index: int): (r: string)
    requires index < |CompositorOptions|
    ensures r != [] <==> index == 1 || index == 2
    ensures index == 1 ==> r == "~/.config/picom/picom.conf"
    ensures index == 2 ==> r == "~/.config/compton.conf"
  {
    CompositorTable();
    if index < 0 || CompositorOptions[index].dbValue.None? then ""
    else CompositorOptions[index].defaultPath.value
  }

  /** A default configuration path exists exactly for the backends that take
      one. */
  lemma DefaultPathIffSupportsConfig(index: int)
    requires index < |CompositorOptions|
    ensures DefaultCompositorPath(index) != [] <==> SupportsConfig(index)
  {
  }

  /** The dock opacity as loaded: clamped into 0..100 and kept when inside. */
  function ClampOpacity(opacity: int): (r: int)
    ensures 0 <= r <= 100
    ensures 0 <= opacity <= 100 ==> r == opacity
    ensures opacity < 0 ==> r == 0
    ensures opacity > 100 ==> r == 100
  {
    var o := if opacity < 0 then 0 else opacity;
    if o > 100 then 100 else o
  }

  /** The configuration path `ShowData` sets: a missing or empty stored path
      falls back to the backend's default, and only a backend that takes a
      configuration file keeps one. */
  function LoadedConfigPath(stored: Option<string>, index: int): (r: Option<string>)
    requires index < |CompositorOptions|
    ensures r.Some? <==> SupportsConfig(index)
    ensures r.Some? ==> r.value != []
    ensures r.Some? && stored.Some? && stored.value != [] ==> r.value == stored.value
    ensures r.Some? && (stored.None? || stored.value == []) ==> r.value == DefaultCompositorPath(index)
  {
    DefaultPathIffSupportsConfig(index);
    var str := if stored.None? || stored.value == [] then DefaultCompositorPath(index) else stored.value;
    if SupportsConfig(index) then Some(str) else None
  }

  /** A value in the defaults database. */
  datatype Pref = Str(text: string) | Flag(on: bool) | Num(n: int)

  type Prefs = map<string, Pref>

  const MoveEffectKey: string := "WindowMovementEffect"
  const LaunchEffectKey: string := "LaunchEffect"
  const ShowContentKey: string := "ShowWindowContentsDuringAnimations"
  const CompositorKey: string := "PreferredCompositor"
  const AutostartKey: string := "AutostartCompositor"
  const ConfigPathKey: string := "CompositorConfigPath"
  const DockOpacityKey: string := "DockOpacity"
  const ShadowsKey: string := "EnableWindowShadows"

  /** The keys the panel owns. */
  const PanelKeys: set<string> := {MoveEffectKey, LaunchEffectKey, ShowContentKey, CompositorKey,
                                   AutostartKey, ConfigPathKey, DockOpacityKey, ShadowsKey}

  /** `GetStringForKey`: NULL unless the key holds a string. */
  function GetString(db: Prefs, key: string): Option<string> {
    if key in db && db[key].Str? then Some(db[key].text) else None
  }

  /** `GetBoolForKey`: false unless the key holds a flag. */
  function GetBool(db: Prefs, key: string): bool {
    key in db && db[key].Flag? && db[key].on
  }

  /** `GetIntegerForKey`: 0 unless the key holds a number. */
  function GetInt(db: Prefs, key: string): int {
    if key in db && db[key].Num? then db[key].n else 0
  }

  /** `wPrefsEffectsShowData`: the panel state loaded from the database. */
  function ShowData(db: Prefs): (p: Panel)
    ensures Consistent(p)
  {
    var index := GetCompositorIndex(GetString(db, CompositorKey));
    Panel(
      ClampTransitionEffectIndex(GetTransitionEffectIndex(GetString(db, MoveEffectKey))),
      ClampTransitionEffectIndex(GetTransitionEffectIndex(GetString(db, LaunchEffectKey))),
      GetBool(db, ShowContentKey),
      index,
      GetBool(db, AutostartKey),
      GetBool(db, ShadowsKey),
      ClampOpacity(GetInt(db, DockOpacityKey)),
      index,
      LoadedConfigPath(GetString(db, ConfigPathKey), index))
  }

  /** The database after the compositor's configuration path is saved: kept
      only for a backend that takes one, removed otherwise. */
  function StoreConfigPath(p: Panel, db: Prefs): (r: Prefs)
    requires p.compositorIndex < |CompositorOptions|
    ensures ConfigPathKey in r <==> p.configPath.Some? && SupportsConfig(p.compositorIndex)
    ensures ConfigPathKey in r ==> r[ConfigPathKey] == Str(p.configPath.value)
    ensures forall k :: k != ConfigPathKey ==> (k in r <==> k in db)
    ensures forall k :: k != ConfigPathKey && k in db ==> r[k] == db[k]
  {
    if p.configPath.Some? && SupportsConfig(p.compositorIndex)
    then db[ConfigPathKey := Str(p.configPath.value)]
    else db - {ConfigPathKey}
  }

  /** No two of the panel's keys are the same key: they differ in length or
      in their first letter. */
  lemma KeysDiffer()
    ensures MoveEffectKey !in {LaunchEffectKey, ShowContentKey, CompositorKey, AutostartKey, ConfigPathKey,
                               DockOpacityKey, ShadowsKey}
    ensures LaunchEffectKey !in {ShowContentKey, CompositorKey, AutostartKey, ConfigPathKey, DockOpacityKey,
                                 ShadowsKey}
    ensures ShowContentKey !in {CompositorKey, AutostartKey, ConfigPathKey, DockOpacityKey, ShadowsKey}
    ensures CompositorKey !in {AutostartKey, ConfigPathKey, DockOpacityKey, ShadowsKey}
    ensures AutostartKey !in {ConfigPathKey, DockOpacityKey, ShadowsKey}
    ensures ConfigPathKey !in {DockOpacityKey, ShadowsKey}
    ensures DockOpacityKey != ShadowsKey
  {
    assert |MoveEffectKey| == 20 && MoveEffectKey[0] == 'W';
    assert |LaunchEffectKey| == 12;
    assert |ShowContentKey| == 34;
    assert |CompositorKey| == 19 && CompositorKey[0] == 'P';
    assert |AutostartKey| == 19 && AutostartKey[0] == 'A';
    assert |ConfigPathKey| == 20 && ConfigPathKey[0] == 'C';
    assert |DockOpacityKey| == 11;
    assert |ShadowsKey| == 19 && ShadowsKey[0] == 'E';
  }

  /** The two transition pop-ups and the show-contents box, saved. */
  function StoreAnimations(p: Panel, db: Prefs): (r: Prefs)
    ensures forall k :: k !in {MoveEffectKey, LaunchEffectKey, ShowContentKey} ==> (k in r <==> k in db)
    ensures forall k :: k !in {MoveEffectKey, LaunchEffectKey, ShowContentKey} && k in db ==> r[k] == db[k]
    ensures MoveEffectKey in r && r[MoveEffectKey] == Str(TransitionName(ClampTransitionEffectIndex(p.moveEffect)))
    ensures LaunchEffectKey in r && r[LaunchEffectKey] == Str(TransitionName(ClampTransitionEffectIndex(p.launchEffect)))
    ensures ShowContentKey in r && r[ShowContentKey] == Flag(p.showContent)
  {
    KeysDiffer();
    db[MoveEffectKey := Str(TransitionName(ClampTransitionEffectIndex(p.moveEffect)))]
      [LaunchEffectKey := Str(TransitionName(ClampTransitionEffectIndex(p.launchEffect)))]
      [ShowContentKey := Flag(p.showContent)]
  }

  /** The compositor pop-up and the autostart box, saved. */
  function StoreCompositor(p: Panel, db: Prefs): (r: Prefs)
    requires 0 <= p.compositorSelection < CompositorCount
    ensures forall k :: k !in {CompositorKey, AutostartKey} ==> (k in r <==> k in db)
    ensures forall k :: k !in {CompositorKey, AutostartKey} && k in db ==> r[k] == db[k]
    ensures CompositorKey in r && r[CompositorKey] == Str(CompositorName(p.compositorSelection))
    ensures AutostartKey in r && r[AutostartKey] == Flag(p.autostart)
  {
    KeysDiffer();
    db[CompositorKey := Str(CompositorName(p.compositorSelection))][AutostartKey := Flag(p.autostart)]
  }

  /** The dock opacity slider and the shadows box, saved. */
  function StoreLook(p: Panel, db: Prefs): (r: Prefs)
    ensures forall k :: k !in {DockOpacityKey, ShadowsKey} ==> (k in r <==> k in db)
    ensures forall k :: k !in {DockOpacityKey, ShadowsKey} && k in db ==> r[k] == db[k]
    ensures DockOpacityKey in r && r[DockOpacityKey] == Num(p.dockOpacity)
    ensures ShadowsKey in r && r[ShadowsKey] == Flag(p.shadows)
  {
    KeysDiffer();
    db[DockOpacityKey := Num(p.dockOpacity)][ShadowsKey := Flag(p.shadows)]
  }

  /** `wPrefsEffectsStoreData`: the database after the panel is saved. The
      compositor pop-up's selection is used unclamped, so it must name an
      option. */
  function StoreData(p: Panel, db: Prefs): (r: Prefs)
    requires 0 <= p.compositorSelection < CompositorCount
    requires p.compositorIndex < |CompositorOptions|
    ensures forall k :: k !in PanelKeys ==> (k in r <==> k in db)
    ensures forall k :: k in db && k !in PanelKeys ==> r[k] == db[k]
    ensures forall k :: k in PanelKeys && k != ConfigPathKey ==> k in r
    ensures r[MoveEffectKey] == Str(TransitionName(ClampTransitionEffectIndex(p.moveEffect)))
    ensures r[LaunchEffectKey] == Str(TransitionName(ClampTransitionEffectIndex(p.launchEffect)))
    ensures r[ShowContentKey] == Flag(p.showContent)
    ensures r[CompositorKey] == Str(CompositorName(p.compositorSelection))
    ensures r[AutostartKey] == Flag(p.autostart)
    ensures ConfigPathKey in r <==> p.configPath.Some? && SupportsConfig(p.compositorIndex)
    ensures ConfigPathKey in r ==> r[ConfigPathKey] == Str(p.configPath.value)
    ensures r[DockOpacityKey] == Num(p.dockOpacity)
    ensures r[ShadowsKey] == Flag(p.shadows)
  {
    KeysDiffer();
    StoreLook(p, StoreConfigPath(p, StoreCompositor(p, StoreAnimations(p, db))))
  }

  /** A panel state `ShowData` can produce: indices in range, the pop-up and
      the remembered compositor in step, the opacity in 0..100, and a non-empty
      configuration path exactly for a backend that takes one. */
  predicate Consistent(p: Panel) {
    && 0 <= p.moveEffect < TransitionCount
    && 0 <= p.launchEffect < TransitionCount
    && 0 <= p.compositorSelection < CompositorCount
    && p.compositorIndex == p.compositorSelection
    && 0 <= p.dockOpacity <= 100
    && (p.configPath.Some? <==> SupportsConfig(p.compositorIndex))
    && (p.configPath.Some? ==> p.configPath.value != [])
  }

  /** Saving a consistent panel and loading it again gives back the same
      panel: every selection, flag, the opacity and the configuration path
      survive the round trip through the database. */
  lemma StoreThenShow(p: Panel, db: Prefs)
    requires Consistent(p)
    ensures ShowData(StoreData(p, db)) == p
  {
    var r := StoreData(p, db);
    NamesAreCStrings();
    TransitionIndexRoundTrip(TransitionName(p.moveEffect), p.moveEffect);
    TransitionIndexRoundTrip(TransitionName(p.launchEffect), p.launchEffect);
    CompositorIndexRoundTrip(CompositorName(p.compositorSelection), p.compositorSelection);
  }

  /** `wPrefsEffectsPrepareForClose`: the configuration path is dropped and
      nothing else changes. */
  function PrepareForClose(p: Panel): (r: Panel)
    ensures r.configPath.None?
    ensures r.(configPath := p.configPath) == p
  {
    p.(configPath := None)
  }

  /** `wPrefsEffectsUndo` reloads the panel: whatever was edited, the result is
      what the database says, so undoing twice is undoing once. */
  function Undo(p: Panel, db: Prefs): (r: Panel)
    ensures Consistent(r)
    ensures r == ShowData(db)
  {
    ShowData(db)
  }
}

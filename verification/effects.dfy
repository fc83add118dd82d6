/** WPrefs.app/Effects.c and EffectsInternal.h: the two option tables of the
    "Animations & Effects" panel and the panel state the other files share. */
module Effects {
  import opened Wrappers
  import opened CText
  import opened Sentinel

  /** `struct WPrefsTransitionEffect`: the value stored in the defaults and the
      label shown in the pop-up. */
  datatype TransitionEffect = TransitionEffect(dbValue: Option<string>, caption: Option<string>)

  /** `struct WPrefsCompositorOption`, with the configuration file each
      backend starts from. */
  datatype CompositorOption = CompositorOption(dbValue: Option<string>, caption: Option<string>,
                                               defaultPath: Option<string>)

  /** `wPrefsTransitionEffects[]`, sentinel included. */
  const TransitionEffects: seq<TransitionEffect> := [
    TransitionEffect(Some("Classic"), Some("Classic (legacy acceleration)")),
    TransitionEffect(Some("Smooth"), Some("Smooth ease-in/out")),
    TransitionEffect(Some("Gentle"), Some("Gentle smoothstep")),
    TransitionEffect(None, None)
  ]

  /** `wPrefsCompositorOptions[]`, sentinel included. */
  const CompositorOptions: seq<CompositorOption> := [
    CompositorOption(Some("None"), Some("No compositor (classic look)"), Some("")),
    CompositorOption(Some("Picom"), Some("Picom (lightweight effects)"), Some("~/.config/picom/picom.conf")),
    CompositorOption(Some("Compton"), Some("Compton (legacy fork)"), Some("~/.config/compton.conf")),
    CompositorOption(Some("Xcompmgr"), Some("xcompmgr (basic compositor)"), Some("")),
    CompositorOption(Some("Compiz"), Some("Compiz (plugin compositor)"), Some("")),
    CompositorOption(None, None, None)
  ]

  predicate IsTransitionEnd(e: TransitionEffect) {
    e.dbValue.None?
  }

  predicate IsCompositorEnd(o: CompositorOption) {
    o.dbValue.None?
  }

  /** Index of the transition table's sentinel: the number of effects. */
  const TransitionCount: nat := 3

  /** Index of the compositor table's sentinel: the number of choices. */
  const CompositorCount: nat := 5

  /** The transition table holds Classic, Smooth and Gentle, in that order,
      then its sentinel; every loop over it sees exactly those three. */
  lemma TransitionTable()
    ensures |TransitionEffects| == TransitionCount + 1
    ensures LiveLength(TransitionEffects, IsTransitionEnd) == TransitionCount
    ensures TransitionEffects[0].dbValue == Some("Classic")
    ensures TransitionEffects[1].dbValue == Some("Smooth")
    ensures TransitionEffects[2].dbValue == Some("Gentle")
  {
    assert IsTransitionEnd(TransitionEffects[3]);
  }

  /** The compositor table holds None, Picom, Compton, Xcompmgr and Compiz, in
      that order, then its sentinel. */
  lemma CompositorTable()
    ensures |CompositorOptions| == CompositorCount + 1
    ensures LiveLength(CompositorOptions, IsCompositorEnd) == CompositorCount
    ensures CompositorOptions[0].dbValue == Some("None")
    ensures CompositorOptions[1].dbValue == Some("Picom")
    ensures CompositorOptions[2].dbValue == Some("Compton")
    ensures CompositorOptions[3].dbValue == Some("Xcompmgr")
    ensures CompositorOptions[4].dbValue == Some("Compiz")
    ensures forall i :: 0 <= i < CompositorCount ==> CompositorOptions[i].defaultPath.Some?
  {
    assert IsCompositorEnd(CompositorOptions[5]);
  }

  function TransitionName(i: nat): string
    requires i < TransitionCount
  {
    TransitionEffects[i].dbValue.value
  }

  function CompositorName(i: nat): string
    requires i < CompositorCount
  {
    CompositorOptions[i].dbValue.value
  }

  lemma NamesAreCStrings()
    ensures forall i :: 0 <= i < TransitionCount ==> CString(TransitionName(i))
    ensures forall i :: 0 <= i < CompositorCount ==> CString(CompositorName(i))
  {
  }

  /** No two stored values of one table match ignoring case, so a name found
      by a case-insensitive lookup names exactly one entry. */
  lemma NamesDistinct()
    ensures forall i, j :: 0 <= i < TransitionCount && 0 <= j < TransitionCount && i != j ==>
      !EqualIgnoringCase(TransitionName(i), TransitionName(j))
    ensures forall i, j :: 0 <= i < CompositorCount && 0 <= j < CompositorCount && i != j ==>
      !EqualIgnoringCase(CompositorName(i), CompositorName(j))
  {
    TransitionNamesDistinct();
    CompositorNamesDistinct();
  }

  /** Classic is longer than the other two; Smooth and Gentle differ in their
      first letter. */
  lemma TransitionNamesDistinct()
    ensures forall i, j :: 0 <= i < TransitionCount && 0 <= j < TransitionCount && i != j ==>
      !EqualIgnoringCase(TransitionName(i), TransitionName(j))
  {
    forall i, j | 0 <= i < TransitionCount && 0 <= j < TransitionCount && i != j
      ensures !EqualIgnoringCase(TransitionName(i), TransitionName(j))
    {
      FoldedApart(TransitionName(i), TransitionName(j));
    }
  }

  /** Two strings of different lengths, or whose first letters are different
      capitals, do not match ignoring case. */
  lemma FoldedApart(a: string, b: string)
    requires |a| != |b| || (|a| >= 1 && |b| >= 1 && 'A' <= a[0] <= 'Z' && 'A' <= b[0] <= 'Z' && a[0] != b[0])
    ensures !EqualIgnoringCase(a, b)
  {
    if |a| == |b| {
      assert ToLower(a)[0] == Lower(a[0]) && ToLower(b)[0] == Lower(b[0]);
    }
  }

  /** The compositor names all have different lengths. */
  lemma CompositorNamesDistinct()
    ensures forall i, j :: 0 <= i < CompositorCount && 0 <= j < CompositorCount && i != j ==>
      !EqualIgnoringCase(CompositorName(i), CompositorName(j))
  {
    forall i, j | 0 <= i < CompositorCount && 0 <= j < CompositorCount && i != j
      ensures !EqualIgnoringCase(CompositorName(i), CompositorName(j))
    {
      assert |CompositorName(i)| != |CompositorName(j)|;
    }
  }

  /** `_Panel`, reduced to the values the model reads: the pop-up selections,
      the check boxes, the slider, and the two fields kept beside them. */
  datatype Panel = Panel(
    moveEffect: int,
    launchEffect: int,
    showContent: bool,
    compositorSelection: int,
    autostart: bool,
    shadows: bool,
    dockOpacity: int,
    compositorIndex: int,
    configPath: Option<string>)
}

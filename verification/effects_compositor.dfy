/** WPrefs.app/EffectsCompositor.c: the per-backend classification of the
    compositor pop-up's index, the executable search, and the decisions behind
    the configuration label, the control states, the capability status line and
    the compositor-changed callback. Widget calls become returned values;
    `access`, `PATH` and `process_running` are parameters. */
module EffectsCompositor {
  import opened Wrappers
  import opened CText
  import opened ExecSearch
  import opened Effects
  import Compositor
  import EffectsSettings

  /** Whether the option at `index` has the stored name `name`, ignoring case. */
  predicate Named(index: int, name: string)
    requires index < |CompositorOptions|
  {
    index >= 0 && CompositorOptions[index].dbValue.Some?
    && StrCaseCmp(CompositorOptions[index].dbValue.value, name) == 0
  }

  /** An index names option `k` iff it is `k`: the table's names are C
      strings that no two entries share, ignoring case. */
  lemma NamedIff(index: int, k: nat)
    requires index < |CompositorOptions| && k < CompositorCount
    ensures Named(index, CompositorName(k)) <==> index == k
  {
    CompositorTable();
    if 0 <= index < CompositorCount {
      NamesAreCStrings();
      NamesDistinct();
      StrCaseCmpZeroIff(CompositorName(index), CompositorName(k));
    }
  }

  /** Which option each index names: "None" at 0, the sentinel at 5, the
      four backends in between. */
  lemma NamedExactly(index: int)
    requires index < |CompositorOptions|
    ensures Named(index, "None") <==> index == 0
    ensures Named(index, "Picom") <==> index == 1
    ensures Named(index, "Compton") <==> index == 2
    ensures Named(index, "Xcompmgr") <==> index == 3
    ensures Named(index, "Compiz") <==> index == 4
  {
    CompositorTable();
    NamedIff(index, 0);
    NamedIff(index, 1);
    NamedIff(index, 2);
    NamedIff(index, 3);
    NamedIff(index, 4);
  }

  /** `compositor_index_is_none`: a negative index, the sentinel, or the "None"
      entry. */
  predicate IsNone(index: int): (r: bool)
    requires index < |CompositorOptions|
    ensures r <==> index <= 0 || index == CompositorCount
  {
    NamedExactly(index);
    CompositorTable();
    index < 0 || CompositorOptions[index].dbValue.None? || Named(index, "None")
  }

  /** `compositor_index_is_picom`: the Picom entry and no other. */
  predicate IsPicom(index: int): (r: bool)
    requires index < |CompositorOptions|
    ensures r <==> index == 1
  {
    NamedExactly(index);
    Named(index, "Picom")
  }

  /** This file's `compositor_index_supports_config`: Picom or Compton. */
  predicate SupportsConfig(index: int): (r: bool)
    requires index < |CompositorOptions|
    ensures r <==> index == 1 || index == 2
  {
    NamedExactly(index);
    IsPicom(index) || Named(index, "Compton")
  }

  /** The classes nest: Picom takes a configuration file, and a backend that
      takes one is a real compositor. */
  lemma Classification(index: int)
    requires index < |CompositorOptions|
    ensures IsPicom(index) ==> SupportsConfig(index)
    ensures SupportsConfig(index) ==> !IsNone(index)
  {
  }

  /** The two files' copies of `compositor_index_supports_config` agree. */
  lemma SupportsConfigAgrees(index: int)
    requires index < |CompositorOptions|
    ensures SupportsConfig(index) == EffectsSettings.SupportsConfig(index)
  {
  }

  /** `compositor_template_name_for_index`: a template only for the backends
      that take a configuration file. */
  function TemplateName(index: int): (r: Option<string>)
    requires index < |CompositorOptions|
    ensures r.Some? <==> SupportsConfig(index)
    ensures r == if index == 1 then Some("picom.conf") else if index == 2 then Some("compton.conf") else None
  {
    NamedExactly(index);
    if IsPicom(index) then Some("picom.conf")
    else if Named(index, "Compton") then Some("compton.conf")
    else None
  }

  /** The template is the file the backend's default configuration path
      points at. */
  lemma TemplateForConfigBackends(index: int)
    requires index < |CompositorOptions|
    ensures TemplateName(index).Some? ==>
      var path := EffectsSettings.DefaultCompositorPath(index);
      var name := TemplateName(index).value;
      |name| < |path| && path[|path| - |name| - 1..] == "/" + name
  {
    if index == 1 {
      PicomPathEndsInTemplate();
    } else if index == 2 {
      ComptonPathEndsInTemplate();
    }
  }

  lemma PicomPathEndsInTemplate()
    ensures "~/.config/picom/picom.conf"[15..] == "/" + "picom.conf"
  {
  }

  lemma ComptonPathEndsInTemplate()
    ensures "~/.config/compton.conf"[9..] == "/" + "compton.conf"
  {
  }

  /** `compositor_binary_for_index`: a binary for every option but none, the
      one src/compositor.c runs for the same backend. */
  function BinaryFor(index: int): (r: Option<string>)
    requires index < |CompositorOptions|
    ensures r.None? <==> IsNone(index)
    ensures r == if index == 1 then Some("picom") else if index == 2 then Some("compton")
      else if index == 3 then Some("xcompmgr") else if index == 4 then Some("compiz") else None
    ensures 0 <= index < CompositorCount ==> r == Compositor.Backends[index].binary
  {
    NamedExactly(index);
    if IsPicom(index) then Some("picom")
    else if Named(index, "Compton") then Some("compton")
    else if Named(index, "Xcompmgr") then Some("xcompmgr")
    else if Named(index, "Compiz") then Some("compiz")
    else None
  }

  /** The binary is the stored name in lower case. */
  lemma BinaryForBackends(index: int)
    requires index < |CompositorOptions|
    ensures BinaryFor(index).Some? ==> BinaryFor(index).value == ToLower(CompositorName(index))
  {
    if index == 1 {
      assert CompositorName(index) == "Picom";
      LowerPicom();
    } else if index == 2 {
      assert CompositorName(index) == "Compton";
      LowerCompton();
    } else if index == 3 {
      assert CompositorName(index) == "Xcompmgr";
      LowerXcompmgr();
    } else if index == 4 {
      assert CompositorName(index) == "Compiz";
      LowerCompiz();
    }
  }

  lemma LowerPicom()
    ensures ToLower("Picom") == "picom"
  {
    LowerCapitalised('P', "icom");
    assert "Picom" == ['P'] + "icom";
  }

  lemma LowerCompton()
    ensures ToLower("Compton") == "compton"
  {
    LowerCapitalised('C', "ompton");
    assert "Compton" == ['C'] + "ompton";
  }

  lemma LowerXcompmgr()
    ensures ToLower("Xcompmgr") == "xcompmgr"
  {
    LowerCapitalised('X', "compmgr");
    assert "Xcompmgr" == ['X'] + "compmgr";
  }

  lemma LowerCompiz()
    ensures ToLower("Compiz") == "compiz"
  {
    LowerCapitalised('C', "ompiz");
    assert "Compiz" == ['C'] + "ompiz";
  }

  /** A capital followed by no capitals folds to its lower-case letter and the
      same tail. */
  lemma LowerCapitalised(c: char, tail: string)
    requires 'A' <= c <= 'Z' && forall i :: 0 <= i < |tail| ==> !('A' <= tail[i] <= 'Z')
    ensures ToLower([c] + tail) == [Lower(c)] + tail
  {
    assert ([c] + tail)[1..] == tail;
  }

  /** `command_exists`: a NULL or empty name is never found; anything else is
      searched for as src/compositor.c does. */
  function CommandExists(binary: Option<string>, env: Env): (r: bool)
    ensures binary.None? || binary.value == [] ==> !r
    ensures binary.Some? && '/' in binary.value ==> r == env.executable(binary.value)
  {
    if binary.None? || binary.value == [] then false
    else Locate(binary.value, env)
  }

  /** The two searches agree on every non-empty name and differ only on the
      empty one, which src/compositor.c counts as available. */
  lemma CommandExistsVersusAvailable(b: Compositor.Backend, env: Env)
    ensures b.binary.Some? && b.binary.value != [] ==>
      CommandExists(b.binary, env) == Compositor.BackendAvailable(Some(b), env)
    ensures b.binary.None? || b.binary.value == [] ==>
      !CommandExists(b.binary, env) && Compositor.BackendAvailable(Some(b), env)
  {
  }

  /** A bare name exists iff some non-empty `PATH` field holds it as an
      executable; empty fields are skipped. */
  lemma CommandExistsBySegments(binary: string, env: Env)
    requires binary != [] && '/' !in binary
    ensures CommandExists(Some(binary), env) <==>
      env.path.Some? &&
      exists d :: d in Split(env.path.value, ':') && d != [] && env.executable(d + "/" + binary)
  {
    LocateBySegments(binary, env);
  }

  /** `wPrefsEffectsSetConfigPath`: the old copy is released and the new path,
      if any, is copied; nothing else in the panel changes. */
  function SetConfigPath(p: Panel, path: Option<string>): (r: Panel)
    ensures r.configPath == path
    ensures r.(configPath := p.configPath) == p
  {
    p.(configPath := path)
  }

  /** The text of the configuration label: "No compositor configuration in
      use", "Compositor configuration will be created on demand", or the path. */
  datatype ConfigLabel = NoConfiguration | CreatedOnDemand | ShowPath(path: string)

  /** What `wPrefsEffectsUpdateConfigPathLabel` and
      `wPrefsEffectsSyncCompositorControls` set on the widgets. */
  datatype ConfigControls = ConfigControls(caption: ConfigLabel, openConfigEnabled: bool,
                                           shadowEnabled: bool, autostartEnabled: bool)

  /** The label, the open-configuration button and the two compositor check
      boxes for a panel state. */
  function UpdateConfigPathLabel(p: Panel): (r: ConfigControls)
    requires p.compositorIndex < |CompositorOptions|
    ensures r.caption == NoConfiguration <==> !SupportsConfig(p.compositorIndex)
    ensures r.caption == CreatedOnDemand <==>
      SupportsConfig(p.compositorIndex) && (p.configPath.None? || p.configPath.value == [])
    ensures r.caption.ShowPath? ==> p.configPath == Some(r.caption.path) && r.caption.path != []
    ensures r.openConfigEnabled <==> r.caption.ShowPath?
    ensures r.shadowEnabled <==> !IsNone(p.compositorIndex)
    ensures r.autostartEnabled <==> !IsNone(p.compositorIndex)
  {
    var hasConfigBackend := SupportsConfig(p.compositorIndex);
    var hasConfig := hasConfigBackend && p.configPath.Some? && p.configPath.value != [];
    var shown := if !hasConfigBackend then NoConfiguration
                 else if !hasConfig then CreatedOnDemand
                 else ShowPath(p.configPath.value);
    var hasCompositor := !IsNone(p.compositorIndex);
    ConfigControls(shown, hasConfig, hasCompositor, hasCompositor)
  }

  /** The three values of the capability status line. */
  datatype Status = Status(running: string, backend: string, fallback: string)

  /** Whether the status considers the backend at `index` available: the none
      backend always is, any other needs its binary found. */
  function StatusAvailable(index: int, env: Env): bool
    requires index < |CompositorOptions|
  {
    IsNone(index) || (BinaryFor(index).Some? && CommandExists(BinaryFor(index), env))
  }

  /** `wPrefsEffectsUpdateCapabilityStatus`'s choice of values; `processRunning`
      stands for `process_running`. */
  function CapabilityStatus(index: int, env: Env, processRunning: string -> bool): (r: Status)
    requires index < |CompositorOptions|
    ensures r.running == "yes" || r.running == "no"
    ensures r.fallback == "active" || r.fallback == "inactive"
    ensures r.running == "yes" <==>
      !IsNone(index) && StatusAvailable(index, env) && processRunning(BinaryFor(index).value)
    ensures r.fallback == "active" <==> !IsNone(index) && !StatusAvailable(index, env)
    ensures IsNone(index) ==> r == Status("no", "none", "inactive")
    ensures !IsNone(index) ==> r.backend == CompositorOptions[index].dbValue.value
  {
    var none := IsNone(index);
    var available := StatusAvailable(index, env);
    var isRunning := !none && available && processRunning(BinaryFor(index).value);
    var backend := if none then "none" else CompositorOptions[index].dbValue.value;
    var fallback := if none || available then "inactive" else "active";
    var running := if isRunning then "yes" else "no";
    Status(if !available && !none then "no" else running, backend, fallback)
  }

  /** The status's availability is src/compositor.c's for the same backend. */
  lemma StatusAgreesWithCompositor(index: nat, env: Env)
    requires index < CompositorCount
    ensures StatusAvailable(index, env) == Compositor.BackendAvailable(Some(Compositor.Backends[index]), env)
  {
  }

  /** The status line, written into the 160-byte buffer. */
  function StatusText(s: Status): string {
    Truncate("running: " + s.running + " | backend: " + s.backend + " | fallback: " + s.fallback, 160)
  }

  /** The buffer never cuts the status line: it is at most 53 characters. */
  lemma StatusTextFits(index: int, env: Env, processRunning: string -> bool)
    requires index < |CompositorOptions|
    ensures var s := CapabilityStatus(index, env, processRunning);
      StatusText(s) == "running: " + s.running + " | backend: " + s.backend + " | fallback: " + s.fallback
      && |StatusText(s)| <= 53
  {
    CompositorTable();
  }

  /** The index the callback works with: a negative selection or the
      sentinel's reads as 0. */
  function SelectedIndex(selection: int): (index: nat)
    requires selection < |CompositorOptions|
    ensures index < CompositorCount
    ensures 0 <= selection < CompositorCount ==> index == selection
    ensures !(0 <= selection < CompositorCount) ==> index == 0
  {
    CompositorTable();
    if selection < 0 || CompositorOptions[selection].dbValue.None? then 0 else selection
  }

  /** `wPrefsEffectsCompositorChanged`'s state change: the selection, with a
      negative or sentinel selection read as 0; on a change of backend the
      configuration path is reset to the new backend's default, or dropped when
      it takes none. */
  function CompositorChanged(p: Panel): (r: Panel)
    requires p.compositorSelection < |CompositorOptions|
    ensures 0 <= r.compositorIndex < CompositorCount
    ensures 0 <= p.compositorSelection < CompositorCount ==> r.compositorIndex == p.compositorSelection
    ensures !(0 <= p.compositorSelection < CompositorCount) ==> r.compositorIndex == 0
    ensures r.compositorIndex == p.compositorIndex ==> r == p
    ensures r.compositorIndex != p.compositorIndex ==>
      r.configPath == (if SupportsConfig(r.compositorIndex)
                       then Some(EffectsSettings.DefaultCompositorPath(r.compositorIndex)) else None)
    ensures r.(configPath := p.configPath, compositorIndex := p.compositorIndex) == p
  {
    var index := SelectedIndex(p.compositorSelection);
    if index != p.compositorIndex then
      var q := if SupportsConfig(index)
               then SetConfigPath(p, Some(EffectsSettings.DefaultCompositorPath(index)))
               else SetConfigPath(p, None);
      q.(compositorIndex := index)
    else p
  }

  /** Running the callback again without a new selection changes nothing. */
  lemma CompositorChangedIdempotent(p: Panel)
    requires p.compositorSelection < |CompositorOptions|
    ensures CompositorChanged(CompositorChanged(p)) == CompositorChanged(p)
  {
  }

  /** A panel that was consistent before the user picked another entry is
      consistent after the callback: it keeps the configuration path invariant
      that loading established. */
  lemma CompositorChangedKeepsConsistent(p: Panel, selection: int)
    requires EffectsSettings.Consistent(p)
    requires 0 <= selection < CompositorCount
    ensures EffectsSettings.Consistent(CompositorChanged(p.(compositorSelection := selection)))
  {
    var r := CompositorChanged(p.(compositorSelection := selection));
    SupportsConfigAgrees(r.compositorIndex);
    SupportsConfigAgrees(p.compositorIndex);
    EffectsSettings.DefaultPathIffSupportsConfig(r.compositorIndex);
  }

  /** Right after switching to a backend that takes a configuration file, the
      label shows its default path and the open button is enabled; after
      switching to one that does not, the label says none is in use. */
  lemma LabelAfterChange(p: Panel, selection: int)
    requires 0 <= selection < CompositorCount && selection != p.compositorIndex
    ensures var r := CompositorChanged(p.(compositorSelection := selection));
      var c := UpdateConfigPathLabel(r);
      (SupportsConfig(selection) ==>
        c.caption == ShowPath(EffectsSettings.DefaultCompositorPath(selection)) && c.openConfigEnabled)
      && (!SupportsConfig(selection) ==> c.caption == NoConfiguration && !c.openConfigEnabled)
  {
    SupportsConfigAgrees(selection);
    EffectsSettings.DefaultPathIffSupportsConfig(selection);
  }
}

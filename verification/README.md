# Window Maker compositor and animation-effects core, in Dafny

This project models the parts of Window Maker that choose, check and launch an
external compositor, and the logic of the "Animations & Effects" panel in WPrefs
that edits those settings. Each part is a pure function over immutable tables,
strings, integers and reals. Every part of the live environment is a parameter:
the `PATH` value, the `access(X_OK)` test, and whether a process is running.

- `Compositor` models src/compositor.c:
  - the backend table and its sentinel;
  - lookup by choice, and the fallback entry;
  - the availability check;
  - the launch command, character for character, with `snprintf` truncation.
- `ExecSearch` models the `PATH` search. src/compositor.c and `command_exists`
  in WPrefs.app/EffectsCompositor.c each carry a copy of it.
- `CText` models the C library pieces the code relies on:
  - ASCII `tolower` and `strcasecmp`;
  - `strtok` on `:`;
  - `snprintf` truncation;
  - split and join on a separator character.
- `Sentinel` models the scan of a table whose end is marked by a sentinel entry.
- `ShellQuote` models `quote_for_shell`. It also has a reader for POSIX shell
  quoting, following section 2.2 ("Quoting") of the Shell Command Language in
  POSIX.1-2017, and a quote/unquote round trip. An array-filling version of
  the second pass carries loop invariants.
- `Effects` models the two option tables of WPrefs.app/Effects.c and the panel
  state.
- `EffectsSettings` models WPrefs.app/EffectsSettings.c:
  - name/index lookups and index clamping;
  - default configuration paths;
  - what `ShowData` loads from the defaults database and what `StoreData`
    writes back, with the store-then-load round trip.
- `EffectsCompositor` models WPrefs.app/EffectsCompositor.c:
  - the index classifiers, template names and binary names;
  - `command_exists`;
  - the configuration label and control states;
  - the capability status line;
  - the compositor-changed transition.
- `Curves` models wrlib/effects.c: progress clamping and the animation curves,
  over `real`.
- `EffectsLayout` models the arithmetic of `wPrefsEffectsLayoutPanel`, as a
  function from the box size to the geometry of every widget.

Assumptions:

- **Backend choice values.** The `WCOMPOSITOR_*` values are not visible in the
  modelled files. They are taken as 0..4 in table order. The proofs only use
  that they are distinct and differ from the sentinel's -1.
- **The defaults database.** It is a map from key to a string, flag or number.
  The typed getters return NULL, false or 0 for a missing key or one of the
  wrong type. The getter functions themselves are not part of this model.
- **C strings.** One `char` of a model string stands for one byte of a C
  string. Strings are assumed to contain no NUL byte. A test like
  `s[0] != '\0'` is modelled as "s is non-empty".
- **Empty `PATH` entries.** POSIX reads a zero-length `PATH` prefix as the
  current directory. Both searches split `PATH` with `strtok`, which skips
  empty fields, so an empty entry is never searched. The `"."` substitution
  in both loops is dead code. `ExecSearch.EmptyFieldIsNotCurrentDirectory`
  shows one such case.

## Model

| member | source | states |
|---|---|---|
| Compositor.BackendsLive | src/compositor.c:12-19 | The lookup loop visits exactly the five named entries before the sentinel stops it. |
| Compositor.GetBackend | src/compositor.c:21-31 | A backend is returned iff the choice is one of the five enumerants. The result is the table entry carrying that choice. |
| Compositor.GetBackendTable | src/compositor.c:21-31 | Every table entry is found under its own choice. The sentinel's -1 gives NULL because the loop stops before the sentinel. |
| Compositor.FallbackBackend | src/compositor.c:33-36 | The fallback is the table's NONE entry, which has no binary. It is available in every environment. |
| Compositor.BackendAvailable | src/compositor.c:38-52 | A NULL backend is never available. A backend with a NULL or empty binary always is. |
| Compositor.AvailableDirect | src/compositor.c:51-52 | A binary containing '/' is available iff that exact path is executable. PATH plays no part. |
| Compositor.AvailableBySegments | src/compositor.c:54-73 | A bare binary is available iff PATH is set and some non-empty ':'-field d has d/binary executable. |
| Compositor.TableWellFormed | src/compositor.c:12-19 | Every launchable entry of the table has a binary to substitute into its format. |
| Compositor.CommandText | src/compositor.c:92-135 | A format applies iff the choice is Picom, Compton, Xcompmgr or Compiz, and every formatted line starts with the binary. |
| Compositor.CommandIsJoinedArgv | src/compositor.c:92-133 | Each format's text is the backend's argument vector joined with single spaces. The configuration path is inserted verbatim. |
| Compositor.BuildLaunchCommand | src/compositor.c:78-136 | A NULL buffer or a zero size gives False and the buffer is untouched. NULL or NONE gives True with "". An unknown choice gives False with "". Otherwise the result is True and the buffer holds the joined argument vector cut to buflen-1 characters. |
| Compositor.CommandWords | src/compositor.c:92-133 | With enough room and no spaces inside the words, splitting the command on spaces gives back exactly the argument vector. |
| Compositor.ShadowAppendsOneFlag | src/compositor.c:92-133 | Shadows append "--shadow" for Picom and Compton and "-c" for Xcompmgr, and nothing else changes. Compiz ignores the flag. |
| Compositor.ConfigArgument | src/compositor.c:92-120 | A non-empty path C inserts exactly "--config C" after "--backend glx". A NULL or empty path adds nothing. |
| Compositor.ComptonLacksAnimationFlags | src/compositor.c:92-120 | Compton's words are Picom's without "--experimental-backends --animations". |
| Compositor.IgnoredOptions | src/compositor.c:122-133 | Xcompmgr's result does not depend on the configuration path. Compiz's result depends on neither option. |
| Compositor.PicomPlainCommand | src/compositor.c:92-105 | With any NULL or empty configuration path and shadows off, Picom's line is the words picom --backend glx --experimental-backends --animations. |
| Compositor.PicomShadowCommand | src/compositor.c:92-105 | With any NULL or empty configuration path, shadows on and a 256-byte buffer, Picom runs as picom --backend glx --experimental-backends --animations --shadow. |
| Compositor.PicomConfigCommand | src/compositor.c:92-105 | With the path /tmp/c.conf, the words --config /tmp/c.conf come right after --backend glx. |
| Compositor.ComptonCommand | src/compositor.c:107-120 | Compton with a path and shadows runs as compton --backend glx --config /tmp/c.conf --shadow. |
| Compositor.XcompmgrCommand | src/compositor.c:122-128 | For every configuration path, with shadows on and a 256-byte buffer, Xcompmgr runs as xcompmgr -c: the path is dropped. |
| Compositor.CompizCommand | src/compositor.c:130-133 | For every configuration path and shadow flag, Compiz runs as compiz --replace ccp. |
| Compositor.CompizTruncated | src/compositor.c:130-133 | A 7-byte buffer cuts the Compiz line to its first six bytes, "compiz". |
| Compositor.UnknownChoiceRefused | src/compositor.c:87-135 | A backend whose choice matches no rule is refused, and the buffer is left holding "". |
| ExecSearch.Candidate | src/compositor.c:61-64 | The candidate buffer is sized so that snprintf never cuts it, giving exactly dir/binary. |
| ExecSearch.FirstHit | src/compositor.c:59-72 | The search reports the first token whose candidate is executable. No earlier token has one, and None means no token has one. |
| ExecSearch.Dir | src/compositor.c:60 | An empty token becomes "." and any other token is used as it is. It has no ensures; ExecSearch.DirIsToken shows that the "." case never arises. |
| ExecSearch.DirIsToken | src/compositor.c:60 | Every strtok token is non-empty, so the "." substitution never happens. |
| ExecSearch.Locate | src/compositor.c:51-72 | A name with a slash is found iff it is executable. An unset or empty PATH finds nothing. A bare name found means some strtok token d has d/binary executable. |
| ExecSearch.LocateDirect | src/compositor.c:51-52 | A name with a slash is checked directly, whatever PATH holds. |
| ExecSearch.LocateBySegments | src/compositor.c:54-73 | A bare name is found iff PATH is set and some non-empty field holds it as an executable. An unset or empty PATH finds nothing. |
| ExecSearch.LocateTwoDirectories | src/compositor.c:59-72 | PATH "/a:/b" finds a tool present only in /b, and finds nothing when nothing is executable. |
| ExecSearch.EmptyFieldIsNotCurrentDirectory | src/compositor.c:59-60 | With PATH "/a::/b" and only ./tool executable, "tool" is not found. |
| CText.StrCaseCmp | WPrefs.app/EffectsSettings.c:10-11 | A string compared with itself gives 0. Two C strings comparing 0 have the same length. |
| CText.StrCaseCmpZeroIff | WPrefs.app/EffectsSettings.c:35 | strcasecmp of two C strings is 0 iff they are equal after ASCII lower-casing. |
| CText.Tokens | src/compositor.c:59 | No strtok token is empty, and none contains the separator. |
| CText.TokensAreNonEmptyFields | src/compositor.c:59 | The strtok tokens of a string are exactly its non-empty separator-delimited fields, in order. |
| CText.Truncate | src/compositor.c:94-97 | snprintf into size bytes keeps the longest prefix of at most size-1 characters. The text is unchanged when it fits. |
| ShellQuote.Escape | WPrefs.app/EffectsCompositor.c:136-143 | The quoted body has the path's length plus three per single quote. |
| ShellQuote.QuoteForShell | WPrefs.app/EffectsCompositor.c:116-148 | NULL maps to NULL. Otherwise the word starts and ends with a single quote and has length n + 2 + 3 * quotes. |
| ShellQuote.UnquoteEscaped | WPrefs.app/EffectsCompositor.c:136-143 | Read from inside single quotes by POSIX rules, the escaped body gives back its text and leaves quoting open. |
| ShellQuote.QuoteRoundTrip | WPrefs.app/EffectsCompositor.c:116-148 | Unquoting the word by POSIX shell rules gives back exactly the original path. |
| ShellQuote.QuoteInjective | WPrefs.app/EffectsCompositor.c:116-148 | Different paths get different quoted words. |
| ShellQuote.QuotedLength | WPrefs.app/EffectsCompositor.c:119-131 | The first pass adds 4 per quote and 1 per other character to the initial 2, giving n + 2 + 3 * quotes. |
| ShellQuote.PutEscaped | WPrefs.app/EffectsCompositor.c:137-142 | One step of the second pass writes the character's escaped form at dst and returns the next free index. |
| ShellQuote.QuoteForShellBuffer | WPrefs.app/EffectsCompositor.c:133-147 | The len+1 byte buffer ends up holding exactly the quoted word followed by the terminator, with no byte to spare. |
| Effects.TransitionTable | WPrefs.app/Effects.c:17-22 | The transition table holds Classic, Smooth and Gentle in that order, then its sentinel. |
| Effects.CompositorTable | WPrefs.app/Effects.c:24-31 | The compositor table holds None, Picom, Compton, Xcompmgr and Compiz in that order, each with a default path, then its sentinel. |
| Effects.NamesAreCStrings | WPrefs.app/Effects.c:17-31 | Every stored name is a C string. |
| Effects.NamesDistinct | WPrefs.app/Effects.c:17-31 | No two stored names of one table are equal ignoring case, so a case-insensitive lookup identifies a single entry. |
| EffectsSettings.SupportsConfig | WPrefs.app/EffectsSettings.c:5-12 | This file's supports-config test holds exactly for Picom (1) and Compton (2). |
| EffectsSettings.ClampTransitionEffectIndex | WPrefs.app/EffectsSettings.c:14-25 | The result is always a valid effect index. It is the argument when the argument is in range, and 0 otherwise. |
| EffectsSettings.GetTransitionEffectIndex | WPrefs.app/EffectsSettings.c:27-41 | NULL or a string matching no effect gives 0. Otherwise the result is the first effect the string names, ignoring case. |
| EffectsSettings.GetCompositorIndex | WPrefs.app/EffectsSettings.c:43-56 | NULL or a string matching no option gives 0. Otherwise the result is the first option the string names, ignoring case. |
| EffectsSettings.TransitionIndexRoundTrip | WPrefs.app/EffectsSettings.c:34-37 | Any letter-case spelling of effect i's stored name, including the name itself, looks up to i. |
| EffectsSettings.CompositorIndexRoundTrip | WPrefs.app/EffectsSettings.c:50-53 | Any letter-case spelling of option i's stored name, including the name itself, looks up to i. |
| EffectsSettings.DefaultCompositorPath | WPrefs.app/EffectsSettings.c:58-64 | The default path is non-empty exactly for Picom and Compton and is their table path. A negative or sentinel index gives "". |
| EffectsSettings.DefaultPathIffSupportsConfig | WPrefs.app/EffectsSettings.c:58-64 | A default path exists exactly for the backends that take a configuration file. |
| EffectsSettings.ClampOpacity | WPrefs.app/EffectsSettings.c:91-95 | The loaded opacity lies in 0..100. It is unchanged when already there, and sent to the nearer bound otherwise. |
| EffectsSettings.LoadedConfigPath | WPrefs.app/EffectsSettings.c:99-105 | A path is kept iff the backend takes one. A missing or empty stored path becomes the default, so a kept path is never empty. |
| EffectsSettings.ShowData | WPrefs.app/EffectsSettings.c:66-111 | Whatever the database holds, the loaded panel is consistent. Indices are in range, the pop-up and the remembered index agree, the opacity is in 0..100, and a path is present exactly for a config-capable backend. |
| EffectsSettings.StoreConfigPath | WPrefs.app/EffectsSettings.c:126-129 | CompositorConfigPath is written iff a path is set and the backend takes one, and removed otherwise. No other key changes. |
| EffectsSettings.StoreData | WPrefs.app/EffectsSettings.c:113-133 | Saving writes every panel key with its setting and leaves every key outside the panel as it was. The config path key is present only for a config-capable backend with a path. |
| EffectsSettings.StoreThenShow | WPrefs.app/EffectsSettings.c:66-133 | Saving a consistent panel and loading it back gives the same panel. |
| EffectsSettings.PrepareForClose | WPrefs.app/EffectsSettings.c:140-143 | Closing drops the configuration path and changes nothing else. |
| EffectsSettings.Undo | WPrefs.app/EffectsSettings.c:135-138 | Undo discards the edits and yields the consistent panel the database describes. |
| EffectsCompositor.IsNone | WPrefs.app/EffectsCompositor.c:68-72 | Is-none holds exactly for negative indices, None (0) and the sentinel (5). |
| EffectsCompositor.IsPicom | WPrefs.app/EffectsCompositor.c:74-78 | Is-picom holds exactly for index 1. |
| EffectsCompositor.SupportsConfig | WPrefs.app/EffectsCompositor.c:80-85 | Supports-config holds exactly for Picom (1) and Compton (2). |
| EffectsCompositor.Classification | WPrefs.app/EffectsCompositor.c:68-85 | Picom supports config, and a backend that supports config is never none. |
| EffectsCompositor.SupportsConfigAgrees | WPrefs.app/EffectsSettings.c:5-12 | The supports-config tests of EffectsCompositor.c and EffectsSettings.c agree on every index. |
| EffectsCompositor.TemplateName | WPrefs.app/EffectsCompositor.c:88-97 | A template name exists iff the backend supports config: picom.conf for 1, compton.conf for 2. |
| EffectsCompositor.TemplateForConfigBackends | WPrefs.app/EffectsCompositor.c:88-97 | The template name is the last component of that backend's default path. |
| EffectsCompositor.BinaryFor | WPrefs.app/EffectsCompositor.c:99-114 | The binary is NULL exactly for none, negative and sentinel indices. Options 1..4 get picom, compton, xcompmgr and compiz, the same binary src/compositor.c runs for that backend. |
| EffectsCompositor.BinaryForBackends | WPrefs.app/EffectsCompositor.c:99-114 | The binary is the stored name in lower case. |
| EffectsCompositor.CommandExists | WPrefs.app/EffectsCompositor.c:20-31 | A NULL or empty name is never found. A name with a slash is found iff that path is executable. |
| EffectsCompositor.CommandExistsVersusAvailable | WPrefs.app/EffectsCompositor.c:27-31 | command_exists agrees with wCompositorBackendAvailable on every non-empty binary. It differs only on the missing or empty one, which it rejects and the other accepts. |
| EffectsCompositor.CommandExistsBySegments | WPrefs.app/EffectsCompositor.c:33-54 | A bare name exists iff PATH is set and some non-empty field holds it as an executable. |
| EffectsCompositor.SetConfigPath | WPrefs.app/EffectsCompositor.c:258-267 | The panel's path becomes the given one, NULL included, and nothing else changes. |
| EffectsCompositor.UpdateConfigPathLabel | WPrefs.app/EffectsCompositor.c:269-295 | There are three labels. "No configuration" appears iff the backend takes none, and "created on demand" iff it takes one but the path is missing or empty. Otherwise the path itself is shown. The open button is enabled iff the path is shown. Shadow and autostart are enabled iff the backend is not none. |
| EffectsCompositor.StatusAvailable | WPrefs.app/EffectsCompositor.c:338-346 | The none option is always available, and any other needs a non-NULL binary that command_exists finds. It has no ensures; EffectsCompositor.StatusAgreesWithCompositor states its meaning against src/compositor.c. |
| EffectsCompositor.CapabilityStatus | WPrefs.app/EffectsCompositor.c:325-353 | "running: yes" appears iff the backend is not none, is available, and process_running holds for its binary. "fallback: active" appears iff the backend is not none and not available. None yields (no, none, inactive). |
| EffectsCompositor.StatusAgreesWithCompositor | WPrefs.app/EffectsCompositor.c:338-348 | The status's availability of option i equals src/compositor.c's availability of backend i. |
| EffectsCompositor.StatusText | WPrefs.app/EffectsCompositor.c:355-356 | The status line is written into a 160-byte buffer. It has no ensures; EffectsCompositor.StatusTextFits shows that the buffer never cuts the line. |
| EffectsCompositor.StatusTextFits | WPrefs.app/EffectsCompositor.c:355-357 | The status line is at most 53 characters, so the 160-byte buffer never cuts it. |
| EffectsCompositor.SelectedIndex | WPrefs.app/EffectsCompositor.c:363-369 | The result is always an option index. A selection naming an option is kept, and a negative or sentinel selection reads as 0. |
| EffectsCompositor.CompositorChanged | WPrefs.app/EffectsCompositor.c:360-378 | A negative or sentinel selection is read as 0. An unchanged index leaves the panel as it was. A changed index resets the path to the new default for Picom or Compton, and to NULL otherwise. Nothing else changes. |
| EffectsCompositor.CompositorChangedIdempotent | WPrefs.app/EffectsCompositor.c:360-378 | Running the callback twice without a new selection is the same as running it once. |
| EffectsCompositor.CompositorChangedKeepsConsistent | WPrefs.app/EffectsCompositor.c:360-378 | A consistent panel stays consistent when the user picks any entry and the callback runs. |
| EffectsCompositor.LabelAfterChange | WPrefs.app/EffectsCompositor.c:371-381 | Right after switching to Picom or Compton, the label shows the default path and the open button is enabled. After switching elsewhere, the label reports no configuration. |
| Curves.ClampProgress | wrlib/effects.c:29-36 | The result is in [0, 1]. It is 0 at or below 0, 1 at or above 1, and the input in between. |
| Curves.ClampMonotone | wrlib/effects.c:29-36 | Clamping preserves the order of progress values. |
| Curves.ProgressForCurve | wrlib/effects.c:38-55 | Classic and every unlisted curve give the clamped progress. Gentle gives the smoothstep of the clamped progress. |
| Curves.Smoothstep | wrlib/effects.c:46-48 | The Gentle curve t*t*(3-2t). It has no ensures; Curves.SmoothstepRange, Curves.SmoothstepSymmetric and Curves.SmoothstepMonotone state its properties. |
| Curves.SmoothstepRange | wrlib/effects.c:46-48 | t^2(3-2t) stays in [0, 1] for t in [0, 1]. |
| Curves.SmoothstepSymmetric | wrlib/effects.c:46-48 | The smoothstep satisfies f(1-t) = 1 - f(t). |
| Curves.SmoothstepMonotone | wrlib/effects.c:46-48 | The smoothstep never decreases on [0, 1]. |
| Curves.ProgressInRange | wrlib/effects.c:38-55 | For every curve but Smooth, the value is in [0, 1] whatever the progress. |
| Curves.ProgressMonotone | wrlib/effects.c:38-55 | For every curve but Smooth, the value is monotone in the progress. |
| Curves.ProgressSymmetric | wrlib/effects.c:38-55 | For every curve but Smooth, progress 1-p gives 1 minus what p gives. |
| Curves.GentleValues | wrlib/effects.c:46-48 | Gentle maps 0 to 0, 1/2 to 1/2, 1 to 1, and 1/4 to 5/32. |
| Curves.DefaultIsClassic | wrlib/effects.c:49-54 | An unlisted curve value behaves like Classic, which is the identity on [0, 1]. |
| EffectsLayout.Layout | WPrefs.app/EffectsLayout.c:16-178 | The scroll view is at least 240 by 240 and the content at least 320 wide. The frame is the content width minus 16, at least 304. Both frames are equally wide. |
| EffectsLayout.FrameWidthClosedForm | WPrefs.app/EffectsLayout.c:48-67 | The content width is max(max(w-16, 240) - 16, 320). The frame's 260-pixel clamp, with the content widening that goes with it, never applies. |
| EffectsLayout.ControlColumn | WPrefs.app/EffectsLayout.c:69-75 | The control column is max(frame/2, 220) wide. The frame-inner-width clamp never binds. The column ends exactly 12 pixels inside the frame's right edge. |
| EffectsLayout.RowsAligned | WPrefs.app/EffectsLayout.c:86-144 | All pop-ups, the slider and the status value share the control column's left edge. The slider's 120-pixel clamp never binds, and the value label ends where the column ends. |
| EffectsLayout.RowWidths | WPrefs.app/EffectsLayout.c:76-155 | Labels are at least 100 wide and full-width rows are frame-24, at least 280. The open button is as wide as the control column, never wider than a full-width row. |
| EffectsLayout.Heights | WPrefs.app/EffectsLayout.c:84-175 | The transition frame is 136 high. The compositor frame starts at 156 and is 372 high, whatever the box size. The content is max(536, visible height) tall and never shorter than the visible part. |
| EffectsLayout.RowsStack | WPrefs.app/EffectsLayout.c:84-164 | Rows inside each frame do not overlap vertically. The hint ends one inner margin above the compositor frame's bottom. |
| EffectsLayout.LabelOverlapsControl | WPrefs.app/EffectsLayout.c:69-78 | The 100-pixel label minimum makes a label run into its pop-up exactly when the frame is narrower than 344, that is when the box is narrower than 392. |

## Left out

- `process_running` (WPrefs.app/EffectsCompositor.c:57-66) runs `pgrep` through `system()`. It is the parameter `processRunning` of `EffectsCompositor.CapabilityStatus`. Its empty-name check and 64-byte command buffer are not modelled.
- `launch_editor_for_config` and `wPrefsEffectsOpenConfig` fork and exec an editor chosen from `VISUAL`, `EDITOR` and the installed tools. Process creation is outside a pure model. Their only string logic, `quote_for_shell`, is modelled.
- `ensure_config_template` and `wPrefsEffectsEnsureTemplateForSelection` copy a template file or write a placeholder. They are file I/O, and so is the `wexpandpath` tilde expansion.
- `wPrefsEffectsUpdateDockOpacityLabel` and `wPrefsEffectsDockOpacityChanged` only format the slider value into a label widget.
- Widget creation, mapping and notification wiring are not modelled: WPrefs.app/EffectsLayout.c outside `wPrefsEffectsLayoutPanel`, and `InitEffects` in WPrefs.app/Effects.c. The `WM*` setter calls appear only as returned values.
- `wwarning` logging is dropped.
- The Smooth curve computes `cos(t * M_PI)`. In `Curves.ProgressForCurve` the cosine is the parameter `cosPi`, and nothing is proved about that curve.
- IEEE `double` arithmetic is idealised as `real`.
- Multi-byte text is not modelled. A `snprintf` cut can split a UTF-8 sequence in a non-ASCII path, and a model `char` cannot show that because it stands for one whole byte.
- C `int` overflow is not modelled, in the layout or elsewhere. `strcasecmp` is ASCII case folding, without locale effects.
- `EffectsLayout.Layout`: the height that line 166 reads back with `WMWidgetHeight` is taken to be the one set at line 106.
- `Compositor.BuildLaunchCommand` requires a well-formed backend, meaning a launchable choice comes with a binary. C would pass NULL to `%s` otherwise. Every table entry is well formed (`Compositor.TableWellFormed`).
- `EffectsSettings.StoreData` requires the compositor pop-up selection to name an option (0..4). The code indexes the table with it unchecked, and an unselected pop-up (-1) would read before the table.
- The preferences getters and setters (`GetStringForKey`, `SetStringForKey`, `RemoveObjectForKey` and the others) are not part of this model. They appear as operations on a map.

# Code Tray: project registry, menu template and auto-login model

A Dafny model of the pure logic inside `main.js` of an Electron tray utility
that keeps a list of project folders and opens them in an editor. The model
covers:

- **Paths**: the posix `basename` the tray uses to name a picked folder.
- **Registry**: the list of `{name, path}` records stored under the key
  `projects`: load (missing value gives the empty list), add (append, named
  after the last path segment, no de-duplication) and remove (drop every entry
  with that path, keep the rest in order).
- **Locale**: which locale file `getLocale` reads for a host locale tag,
  including how JavaScript evaluates `case 'es-419' || 'es'`.
- **AutoLogon**: the decision `setAutoLogon` makes from the registrar's
  `isEnabled` and the wanted flag: enable, disable or nothing.
- **Menu**: the template `render` builds: add, separator, one four-child
  submenu per project (three editors, then remove), separator, the
  "Iniciar no Login" checkbox, separator, quit. The template has
  `|projects| + 6` nodes.
- **Tray**: the store as a state (`projects`, `initLogin`), the render step
  (load, reconcile, build) and the effect of each menu click. Host calls
  (spawning an editor, the ticker fetch, auto-launch enable/disable, quit)
  are returned as `Effect` values rather than performed. The folder picker's
  answer and the registrar's `isEnabled()` are parameters.

Notes on the modelling:

- The checkbox label is the literal "Iniciar no Login" in every locale
  (main.js:168). It is not read from the locale file.
- Electron flips a checkbox's `checked` before it calls the click handler,
  and the checkbox click does not re-render. So `Tray.Click` on the checkbox
  stores the negation of the stored flag, which the checkbox's live state
  always equals: the first click flips the rendered value (the stored one),
  and each later click flips the value the previous click stored.
- The remove handler filters the list loaded by the render that built the
  menu. Every change to that list is followed by a new render, so `Tray.Click`
  filters the list currently stored.
- `const [path] = result` on an empty picker result makes
  `basename(undefined)` throw a TypeError. `Tray.Click` returns `Threw` then,
  and the store is unchanged.

## Model

| member | source | states |
|---|---|---|
| Paths.Basename | main.js:144 | the derived name contains no separator and is no longer than the path; a path made only of separators (or empty) gives the empty name |
| Paths.BasenameOfJoin | main.js:144 | the name derived from `dir/seg` is `seg`, whatever `dir` is |
| Paths.BasenameOfPlainName | main.js:144 | a path with no separator is its own name |
| Paths.BasenameIgnoresTrailingSep | main.js:144 | a trailing separator does not change the derived name |
| Registry.Load | main.js:92-94 | a missing `projects` value loads as the empty registry; a stored list loads as itself |
| Registry.Add | main.js:143-155 | adding appends exactly one entry `{name: basename(path), path}` after all previous entries, which stay unchanged and in order |
| Registry.AddKeepsDuplicates | main.js:143-155 | adding a path that is already registered registers it once more (no de-duplication) |
| Registry.Remove | main.js:128 | the result holds exactly the entries whose path differs, as a subsequence of the original, with length reduced by the number of entries under the path; an absent path leaves the list unchanged |
| Registry.RemoveIsUnique | main.js:128 | any order-preserving selection that avoids the path and is as long as Remove's result equals it, so Remove keeps every other entry in its original order |
| Registry.RemoveUndoesAdd | main.js:125-155 | adding a path and then removing it gives the same list as removing it alone |
| Registry.RemoveCommutesWithAddOfOtherPath | main.js:125-155 | removing one path and adding a different one commute |
| Locale.JsOr | main.js:61-63 | JavaScript's `or` of two strings is `a` when `a` is non-empty, else `b` |
| Locale.Switch | main.js:60-67 | a switch picks the branch of the first case strictly equal to the tag, else the default |
| Locale.GetLocale | main.js:57-67 | as written: "es-419" selects es, "pt-BR" selects pt, and every other tag selects en |
| Locale.SecondAlternativesFallBackToEnglish | main.js:61-66 | "es" and "pt-PT" select the English file |
| Locale.IntendedLocale | main.js:60-67 | corrected: "es-419" or "es" selects es, "pt-BR" or "pt-PT" selects pt, every other tag selects en |
| Locale.IntendedDiffersOnlyOnSecondAlternatives | main.js:60-67 | the corrected and the written selection differ exactly on "es" and "pt-PT" |
| AutoLogon.Reconcile | main.js:81-88 | at most one call is made; enable iff not enabled and wanted; disable iff enabled and not wanted |
| AutoLogon.ReconcileFollowsTable | main.js:83-87 | the early return and two `if`s make exactly the four-case table's decision |
| AutoLogon.ReconcileReachesFlag | main.js:81-88 | after the calls the registration equals the flag, and reconciling again makes no call |
| Menu.ProjectItems | main.js:98-133 | one submenu per project, in registry order |
| Menu.Render | main.js:135-184 | the template has n + 6 nodes for n projects: add first, quit last, separators at 1, n+2 and n+4, the checkbox at n+3 carrying the stored initLogin, and the submenu of project i at i+2, labelled with its name, with children openCode, openSub, openPhp, remove on its path |
| Menu.RenderRoundTrip | main.js:98-184 | reading the project submenus back from a rendered template gives the registry, in order |
| Menu.RenderActionsTargetRegistered | main.js:98-133 | every open and remove action in the template targets a registered path |
| Menu.Command | main.js:104-120 | each editor has its own command: "code" for VS Code, "subl" for Sublime, "pstorm" for PhpStorm, and no command names two editors |
| Tray.StringsFor | main.js:57-67 | the render step reads the es file for "es-419" and "es", the pt file for "pt-BR" and "pt-PT", and the en file for every other tag (the corrected selection, see Findings) |
| Tray.StringsForAgreesWithWrittenSelection | main.js:57-67 | on every tag other than "es" and "pt-PT" the render step reads the same file as `getLocale` as written |
| Tray.SetAutoLogon | main.js:78-89 | the flag is stored and the registry untouched; only auto-launch calls are requested, at most one: enable iff not enabled and wanted, disable iff enabled and not wanted, and nothing when the registration already matches the flag |
| Tray.RenderTray | main.js:91-184 | rendering leaves the store as it was and builds exactly the `Menu.Render` template of the stored registry and stored flag, labelled with the locale strings `Tray.StringsFor` chooses for the host tag (the corrected selection); it shows the stored registry, puts the stored flag on the checkbox, and reconciles on every render: at most one auto-launch call, enable iff not registered and the flag is set, disable iff registered and the flag is clear, none when they already agree |
| Tray.Click | main.js:98-184 | only an empty picker result throws; only add and remove touch the registry and trigger a re-render, and they request nothing of the host; only the checkbox changes the flag, it negates it, and it makes at most one auto-launch call: enable iff not registered and the new flag is set, disable iff registered and the new flag is clear |
| Tray.CancelledAddChangesNothing | main.js:139-141 | a cancelled folder picker leaves the store as it was and requests nothing |
| Tray.PickedAddAppends | main.js:139-157 | a picked folder is appended after the existing entries, even if already registered |
| Tray.RemoveClickDropsPath | main.js:125-130 | the remove click stores exactly the other entries, and the next menu shows no project with that path |
| Tray.OpenSpawnsEditor | main.js:101-124 | an open click spawns that editor's command on the project's path, then fetches the ticker, and leaves the store unchanged |
| Tray.ToggleThenRenderIsQuiet | main.js:167-173 | a checkbox click negates the flag and makes exactly the reconciliation calls for the new flag; once those calls take effect, the next render's reconciliation makes no call |
| Tray.FirstProjectScenario | main.js:139-157 | from a fresh store, adding "/home/u/app" registers `{name: "app"}` and the menu shows one submenu "app" with four children |

## Left out

- Electron `Tray`, `Menu.buildFromTemplate`, `dialog`, `Notification`, the dock and the `app` lifecycle: host UI. Menu nodes are a datatype, and the folder picker's answer is a parameter.
- `spawn` of editors with `shell: true`, and `sendError` forwarding stderr chunks to notifications: process I/O and callbacks. An open click returns a `Spawn` effect. Shell interpretation of the path is not modelled.
- `getBTC`: an HTTP request and `toLocaleString` formatting. An open click returns a `FetchTicker` effect.
- `AutoLaunch` construction and its promises: only the decision is modelled. `isEnabled()` is a parameter, and enable/disable are returned as effects.
- `electron-store` persistence and `JSON.parse`/`JSON.stringify`: the stored list is an abstract `Option<seq<Project>>`. So a stored blob that is an empty string (falsy, loads as empty) or is not valid JSON (parse throws) cannot be represented.
- `fs.readFileSync` of the locale files: the file contents are a `LocaleFiles` parameter. Only the choice of file is modelled.
- Paths.Basename: follows Node's posix rules (separator `/`). Windows's `path.win32` rules (backslash, drive letters) are not modelled.
- Tray.StringsFor uses the corrected locale selection (see Findings), not the written one, so the tray model reads the es file for "es" and the pt file for "pt-PT" where main.js reads the en file. A defect the model logs is replaced by its correction in the rest of the model; Locale.GetLocale keeps the written behaviour, and Tray.StringsForAgreesWithWrittenSelection shows the two agree on every other tag.

## Findings

| source | as written | input that shows it | evidently intended | confidence | as-written member | corrected member |
|---|---|---|---|---|---|---|
| main.js:61-63 | the case labels `'es-419' or 'es'` and `'pt-BR' or 'pt-PT'` (JavaScript's `or` operator) evaluate to their left operands, so only "es-419" and "pt-BR" match | locale tag "es" (or "pt-PT") selects locale/en.json | either tag of a pair selects that language's file | high (not executed) | Locale.GetLocale, Locale.SecondAlternativesFallBackToEnglish | Locale.IntendedLocale, Locale.IntendedDiffersOnlyOnSecondAlternatives |

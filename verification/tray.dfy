/** The tray as a state machine over its store: what `render` reads and
    reconciles, and what each menu click writes and asks the host to do. */
module Tray {
  import opened Wrappers
  import opened Paths
  import opened Registry
  import opened Locale
  import opened AutoLogon
  import opened Menu

  /** The two store keys: `projects` (None while never written) and
      `initLogin` (false by the schema default). */
  datatype Store = Store(projects: Option<seq<Project>>, initLogin: bool)

  const InitialStore: Store := Store(None, false)

  /** The contents of the three locale files. */
  datatype LocaleFiles = LocaleFiles(en: Strings, es: Strings, pt: Strings)

  /** The locale strings `render` reads for a host locale tag, chosen by
      the corrected selection. */
  function StringsFor(files: LocaleFiles, tag: string): (r: Strings)
    ensures tag == "es-419" || tag == "es" ==> r == files.es
    ensures tag == "pt-BR" || tag == "pt-PT" ==> r == files.pt
    ensures tag !in ["es-419", "es", "pt-BR", "pt-PT"] ==> r == files.en
  {
    FileStrings(files, IntendedLocale(tag))
  }

  /** The contents of one locale file. */
  function FileStrings(files: LocaleFiles, f: LocaleFile): Strings
  {
    match f
    case En => files.en
    case Es => files.es
    case Pt => files.pt
  }

  /** On every tag except "es" and "pt-PT" the render step reads the file
      `getLocale` reads as written. */
  lemma StringsForAgreesWithWrittenSelection(files: LocaleFiles, tag: string)
    requires tag != "es" && tag != "pt-PT"
    ensures StringsFor(files, tag) == FileStrings(files, GetLocale(tag))
  {
  }

  /** A request to the host the core cannot carry out itself. */
  datatype Effect =
    | Spawn(command: string, arg: string)
    | FetchTicker
    | AutoLaunch(call: Call)
    | QuitApp

  /** The folder picker's answer: cancelled, or the chosen paths. */
  datatype Picked = Cancelled | Chosen(paths: seq<string>)

  /** A rendered tray: the template and the auto-launch calls it triggers. */
  datatype Rendered = Rendered(menu: seq<Node>, store: Store, effects: seq<Effect>)

  /** The end of a click: the store afterwards, the effects requested, and
      whether the menu is rebuilt; or the handler threw and nothing was written. */
  datatype Outcome =
    | Done(store: Store, effects: seq<Effect>, rerender: bool)
    | Threw

  function AutoLaunchEffects(calls: seq<Call>): (effects: seq<Effect>)
    ensures |effects| == |calls|
    ensures forall i :: 0 <= i < |calls| ==> effects[i] == AutoLaunch(calls[i])
  {
    if |calls| == 0 then [] else [AutoLaunch(calls[0])] + AutoLaunchEffects(calls[1..])
  }

  /** `setAutoLogon(auto)`: store the flag, then reconcile the registrar
      against it. */
  function SetAutoLogon(st: Store, isEnabled: bool, auto: bool): (o: (Store, seq<Effect>))
    ensures o.0.initLogin == auto && o.0.projects == st.projects
    ensures |o.1| <= 1
    ensures AutoLaunch(Enable) in o.1 <==> !isEnabled && auto
    ensures AutoLaunch(Disable) in o.1 <==> isEnabled && !auto
    ensures isEnabled == auto ==> o.1 == []
    ensures forall e :: e in o.1 ==> e.AutoLaunch?
  {
    var calls := Reconcile(isEnabled, auto);
    (st.(initLogin := auto), AutoLaunchEffects(calls))
  }

  /** `render`: load the registry, choose the locale, reconcile auto-launch
      with the stored flag, and build the template. */
  function RenderTray(st: Store, files: LocaleFiles, tag: string, isEnabled: bool): (r: Rendered)
    ensures r.store == st
    ensures |r.menu| == |Load(st.projects)| + 6
    ensures MenuProjects(r.menu) == Load(st.projects)
    ensures r.menu[|r.menu| - 3] == Checkbox(LoginLabel, st.initLogin, ToggleAutoLogin)
    ensures r.menu == Render(Load(st.projects), StringsFor(files, tag), st.initLogin)
    ensures |r.effects| <= 1
    ensures AutoLaunch(Enable) in r.effects <==> !isEnabled && st.initLogin
    ensures AutoLaunch(Disable) in r.effects <==> isEnabled && !st.initLogin
    ensures isEnabled == st.initLogin ==> r.effects == []
  {
    var projects := Load(st.projects);
    var (st', effects) := SetAutoLogon(st, isEnabled, st.initLogin);
    var menu := Render(projects, StringsFor(files, tag), st.initLogin);
    RenderRoundTrip(projects, StringsFor(files, tag), st.initLogin);
    Rendered(menu, st', effects)
  }

  /** A click on a node of the template rendered from `st`. The remove
      handler filters the list loaded by that render, which is the stored
      list, since every change of it is followed by a render. A checkbox is
      flipped by the host before its handler runs, so the handler sees the
      negation of the stored flag, which the checkbox's live state always
      equals (the first click flips the rendered value, which is the stored
      one; each later click flips the value the previous click stored). */
  function Click(st: Store, a: Action, picked: Picked, isEnabled: bool): (o: Outcome)
    ensures o.Threw? <==> a.AddProject? && picked.Chosen? && |picked.paths| == 0
    ensures o.Done? && !a.AddProject? && !a.RemoveProject? ==> o.store.projects == st.projects
    ensures o.Done? && !a.ToggleAutoLogin? ==> o.store.initLogin == st.initLogin
    ensures o.Done? && a.ToggleAutoLogin? ==> o.store.initLogin == !st.initLogin
    ensures o.Done? && a.ToggleAutoLogin? ==> |o.effects| <= 1
    ensures o.Done? && a.ToggleAutoLogin? ==>
              (AutoLaunch(Enable) in o.effects <==> !isEnabled && !st.initLogin)
    ensures o.Done? && a.ToggleAutoLogin? ==>
              (AutoLaunch(Disable) in o.effects <==> isEnabled && st.initLogin)
    ensures o.Done? && (a.AddProject? || a.RemoveProject?) ==> o.effects == []
    ensures o.Done? && o.rerender <==> o.Done? && (a.RemoveProject? || (a.AddProject? && picked.Chosen?))
  {
    var projects := Load(st.projects);
    match a
    case AddProject =>
      (match picked
       case Cancelled => Done(st, [], false)
       case Chosen(paths) =>
         if |paths| == 0 then Threw
         else Done(st.(projects := Some(Add(projects, paths[0]))), [], true))
    case OpenEditor(editor, path) =>
      Done(st, [Spawn(Command(editor), path), FetchTicker], false)
    case RemoveProject(path) =>
      Done(st.(projects := Some(Remove(projects, path))), [], true)
    case ToggleAutoLogin =>
      var (st', effects) := SetAutoLogon(st, isEnabled, !st.initLogin);
      Done(st', effects, false)
    case Quit =>
      Done(st, [QuitApp], false)
  }

  /** Cancelling the folder picker leaves the store as it was and asks
      nothing of the host. */
  lemma CancelledAddChangesNothing(st: Store, isEnabled: bool)
    ensures Click(st, AddProject, Cancelled, isEnabled) == Done(st, [], false)
  {
  }

  /** Picking a folder appends one entry for it after all existing ones,
      even when the folder is already registered. */
  lemma PickedAddAppends(st: Store, path: string, rest: seq<string>, isEnabled: bool)
    ensures var o := Click(st, AddProject, Chosen([path] + rest), isEnabled);
      && o.Done?
      && Load(o.store.projects) == Load(st.projects) + [Project(Basename(path), path)]
      && CountPath(Load(o.store.projects), path) == CountPath(Load(st.projects), path) + 1
  {
    AddKeepsDuplicates(Load(st.projects), path);
  }

  /** Removing a path leaves exactly the other entries, in order; the next
      render shows no submenu for that path. */
  lemma RemoveClickDropsPath(st: Store, path: string, files: LocaleFiles, tag: string, isEnabled: bool)
    ensures var o := Click(st, RemoveProject(path), Cancelled, isEnabled);
      && o.Done?
      && Load(o.store.projects) == Remove(Load(st.projects), path)
      && forall p :: p in MenuProjects(RenderTray(o.store, files, tag, isEnabled).menu) ==> p.path != path
  {
  }

  /** Opening a project spawns its editor on its path and fetches the ticker;
      the store is untouched. */
  lemma OpenSpawnsEditor(st: Store, editor: Editor, path: string, isEnabled: bool)
    ensures var o := Click(st, OpenEditor(editor, path), Cancelled, isEnabled);
      o == Done(st, [Spawn(Command(editor), path), FetchTicker], false)
  {
  }

  /** Toggling "start at login" makes exactly the reconciliation calls for
      the new flag; once they take effect the registrar agrees with the flag,
      so the next render's reconciliation makes no call. */
  lemma ToggleThenRenderIsQuiet(st: Store, files: LocaleFiles, tag: string, isEnabled: bool)
    ensures var o := Click(st, ToggleAutoLogin, Cancelled, isEnabled);
      var calls := Reconcile(isEnabled, !st.initLogin);
      && o.Done?
      && o.effects == AutoLaunchEffects(calls)
      && o.store.initLogin == !st.initLogin
      && RenderTray(o.store, files, tag, Apply(isEnabled, calls)).effects == []
  {
    ReconcileReachesFlag(isEnabled, !st.initLogin);
  }

  /** From a fresh store, adding "/home/u/app" registers one project named
      "app", and the menu shows it as one submenu of the three editors and
      remove. */
  lemma FirstProjectScenario(files: LocaleFiles, tag: string, isEnabled: bool)
    ensures var o := Click(InitialStore, AddProject, Chosen(["/home/u/app"]), isEnabled);
      && o.Done?
      && Load(o.store.projects) == [Project("app", "/home/u/app")]
      && var m := RenderTray(o.store, files, tag, isEnabled).menu;
         && |m| == 7
         && m[2].Submenu? && m[2].text == "app" && |m[2].children| == 4
  {
    var o := Click(InitialStore, AddProject, Chosen(["/home/u/app"]), isEnabled);
    AddFirstProject(isEnabled);
    var r := RenderTray(o.store, files, tag, isEnabled);
    OneProjectMenu(Project("app", "/home/u/app"), StringsFor(files, tag), false);
  }

  /** The click of the scenario stores the one project and re-renders. */
  lemma AddFirstProject(isEnabled: bool)
    ensures Click(InitialStore, AddProject, Chosen(["/home/u/app"]), isEnabled)
         == Done(Store(Some([Project("app", "/home/u/app")]), false), [], true)
  {
    AppIsNamedApp();
    assert Load(InitialStore.projects) == [];
    assert Add([], "/home/u/app") == [Project("app", "/home/u/app")];
  }

  /** The template of a one-project registry shows that project as the
      only submenu, with four children. */
  lemma OneProjectMenu(p: Project, s: Strings, initLogin: bool)
    ensures var m := Render([p], s, initLogin);
      |m| == 7 && m[2].Submenu? && m[2].text == p.name && |m[2].children| == 4
  {
    var m := Render([p], s, initLogin);
    assert [p][0] == p;
  }

  /** The folder "/home/u/app" is named "app". */
  lemma AppIsNamedApp()
    ensures Basename("/home/u/app") == "app"
  {
    BasenameOfJoin("/home/u", "app");
    assert "/home/u" + [Sep] + "app" == "/home/u/app";
  }
}

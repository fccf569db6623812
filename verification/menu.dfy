/** The context-menu template `render` hands to Electron, as a value: an
    ordered list of nodes, each naming the action its click performs. */
module Menu {
  import opened Wrappers
  import opened Registry

  /** The three editors a project can be opened in. */
  datatype Editor = VSCode | Sublime | PhpStorm

  /** The shell command spawned for each editor. */
  function Command(e: Editor): (c: string)
    ensures c == "code" <==> e == VSCode
    ensures c == "subl" <==> e == Sublime
    ensures c == "pstorm" <==> e == PhpStorm
  {
    match e
    case VSCode => "code"
    case Sublime => "subl"
    case PhpStorm => "pstorm"
  }

  /** What a click on a menu node does. */
  datatype Action =
    | AddProject
    | OpenEditor(editor: Editor, path: string)
    | RemoveProject(path: string)
    | ToggleAutoLogin
    | Quit

  datatype Node =
    | Item(text: string, action: Action)
    | Submenu(text: string, children: seq<Node>)
    | Separator
    | Checkbox(text: string, checked: bool, action: Action)

  /** The keys of a locale file the menu reads. */
  datatype Strings = Strings(
    add: string, remove: string, close: string,
    openCode: string, openSub: string, openPhp: string)

  /** The checkbox label is the same literal in every locale. */
  const LoginLabel: string := "Iniciar no Login"

  /** The submenu of one project: its three editors, then remove. */
  function ProjectSubmenu(p: Project, s: Strings): Node
  {
    Submenu(p.name, [
      Item(s.openCode, OpenEditor(VSCode, p.path)),
      Item(s.openSub, OpenEditor(Sublime, p.path)),
      Item(s.openPhp, OpenEditor(PhpStorm, p.path)),
      Item(s.remove, RemoveProject(p.path))])
  }

  /** `projects.map(...)`: one submenu per project, in registry order. */
  function ProjectItems(projects: seq<Project>, s: Strings): (items: seq<Node>)
    ensures |items| == |projects|
    ensures forall i :: 0 <= i < |projects| ==> items[i] == ProjectSubmenu(projects[i], s)
  {
    if |projects| == 0 then []
    else [ProjectSubmenu(projects[0], s)] + ProjectItems(projects[1..], s)
  }

  /** The whole template: add, separator, the project submenus, separator,
      the login checkbox, separator, quit. */
  function Render(projects: seq<Project>, s: Strings, initLogin: bool): (m: seq<Node>)
    ensures |m| == |projects| + 6
    ensures m[0] == Item(s.add, AddProject)
    ensures m[|m| - 1] == Item(s.close, Quit)
    ensures m[1] == Separator && m[|projects| + 2] == Separator && m[|projects| + 4] == Separator
    ensures m[|projects| + 3] == Checkbox(LoginLabel, initLogin, ToggleAutoLogin)
    ensures forall i :: 0 <= i < |projects| ==>
              && m[i + 2].Submenu?
              && m[i + 2].text == projects[i].name
              && m[i + 2].children == [
                   Item(s.openCode, OpenEditor(VSCode, projects[i].path)),
                   Item(s.openSub, OpenEditor(Sublime, projects[i].path)),
                   Item(s.openPhp, OpenEditor(PhpStorm, projects[i].path)),
                   Item(s.remove, RemoveProject(projects[i].path))]
  {
    [Item(s.add, AddProject), Separator]
    + ProjectItems(projects, s)
    + [Separator, Checkbox(LoginLabel, initLogin, ToggleAutoLogin), Separator, Item(s.close, Quit)]
  }

  /** Reads a project back from a node: a four-child submenu whose last child
      removes a path is the submenu of the project with that label and path. */
  function ProjectOf(n: Node): Option<Project>
  {
    if n.Submenu? && |n.children| == 4 && n.children[3].Item? && n.children[3].action.RemoveProject?
    then Some(Project(n.text, n.children[3].action.path))
    else None
  }

  /** The projects a menu template shows, in order. */
  function MenuProjects(m: seq<Node>): seq<Project>
  {
    if |m| == 0 then []
    else
      var first := match ProjectOf(m[0]) case Some(p) => [p] case None => [];
      first + MenuProjects(m[1..])
  }

  lemma {:induction false} MenuProjectsAppend(a: seq<Node>, b: seq<Node>)
    ensures MenuProjects(a + b) == MenuProjects(a) + MenuProjects(b)
    decreases |a|
  {
    if |a| == 0 {
      assert a + b == b;
    } else {
      assert (a + b)[1..] == a[1..] + b;
      MenuProjectsAppend(a[1..], b);
    }
  }

  lemma {:induction false} ProjectItemsRoundTrip(projects: seq<Project>, s: Strings)
    ensures MenuProjects(ProjectItems(projects, s)) == projects
    decreases |projects|
  {
    if |projects| > 0 {
      var items := ProjectItems(projects, s);
      assert items == [items[0]] + ProjectItems(projects[1..], s);
      MenuProjectsAppend([items[0]], ProjectItems(projects[1..], s));
      ProjectItemsRoundTrip(projects[1..], s);
      assert ProjectOf(items[0]) == Some(projects[0]);
      assert projects == [projects[0]] + projects[1..];
    }
  }

  lemma {:induction false} NoProjectNodes(m: seq<Node>)
    requires forall i :: 0 <= i < |m| ==> ProjectOf(m[i]).None?
    ensures MenuProjects(m) == []
    decreases |m|
  {
    if |m| > 0 {
      NoProjectNodes(m[1..]);
    }
  }

  /** The registry can be read back from the menu it renders: the project
      submenus are exactly the projects, in order, and no other node of the
      template looks like one. */
  lemma RenderRoundTrip(projects: seq<Project>, s: Strings, initLogin: bool)
    ensures MenuProjects(Render(projects, s, initLogin)) == projects
  {
    var head := [Item(s.add, AddProject), Separator];
    var tail := [Separator, Checkbox(LoginLabel, initLogin, ToggleAutoLogin), Separator, Item(s.close, Quit)];
    var items := ProjectItems(projects, s);
    MenuProjectsAppend(head + items, tail);
    MenuProjectsAppend(head, items);
    ProjectItemsRoundTrip(projects, s);
    NoProjectNodes(head);
    NoProjectNodes(tail);
  }

  /** The paths registered in a list of projects. */
  function PathsOf(projects: seq<Project>): set<string>
  {
    set p | p in projects :: p.path
  }

  /** Every open and remove action in a rendered menu targets a registered path. */
  lemma RenderActionsTargetRegistered(projects: seq<Project>, s: Strings, initLogin: bool)
    ensures var m := Render(projects, s, initLogin);
      forall i, j :: 0 <= i < |m| && m[i].Submenu? && 0 <= j < |m[i].children| ==>
        m[i].children[j].action.path in PathsOf(projects)
  {
    var m := Render(projects, s, initLogin);
    forall i, j | 0 <= i < |m| && m[i].Submenu? && 0 <= j < |m[i].children|
      ensures m[i].children[j].action.path in PathsOf(projects)
    {
      assert 2 <= i < |projects| + 2;
      assert projects[i - 2] in projects;
    }
  }
}

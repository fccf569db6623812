/** The project registry: the ordered list of `{name, path}` records the tray
    keeps under the store key `projects`, and the three rules that read and
    change it (load, add, remove). */
module Registry {
  import opened Wrappers
  import opened Paths

  /** One registered folder: the label shown in the menu and the folder's path. */
  datatype Project = Project(name: string, path: string)

  /** `a` is obtained from `b` by deleting zero or more entries. */
  predicate IsSubsequence<T(==)>(a: seq<T>, b: seq<T>)
    decreases |b|
  {
    || |a| == 0
    || (&& |b| > 0
        && ((a[0] == b[0] && IsSubsequence(a[1..], b[1..])) || IsSubsequence(a, b[1..])))
  }

  /** Number of entries registered under `path`. */
  function CountPath(projects: seq<Project>, path: string): nat
  {
    if |projects| == 0 then 0
    else (if projects[0].path == path then 1 else 0) + CountPath(projects[1..], path)
  }

  /** The registry as read at the start of every render: a missing stored
      value is the empty registry; a stored list is used as it is. */
  function Load(stored: Option<seq<Project>>): (r: seq<Project>)
    ensures stored.None? ==> r == []
    ensures stored.Some? ==> r == stored.value
  {
    match stored
    case None => []
    case Some(projects) => projects
  }

  /** The add rule: append the picked folder, named after its last path
      segment. Nothing is de-duplicated. */
  function Add(projects: seq<Project>, path: string): (r: seq<Project>)
    ensures |r| == |projects| + 1
    ensures r[..|projects|] == projects
    ensures r[|projects|].path == path && Sep !in r[|projects|].name
    ensures r[|projects|].name == Basename(path)
  {
    projects + [Project(Basename(path), path)]
  }

  /** The remove rule: drop every entry whose path equals `path`, keeping the
      others in their order. Removing an absent path changes nothing. */
  function Remove(projects: seq<Project>, path: string): (r: seq<Project>)
    ensures forall x :: x in r <==> x in projects && x.path != path
    ensures IsSubsequence(r, projects)
    ensures |r| == |projects| - CountPath(projects, path)
    ensures CountPath(projects, path) == 0 ==> r == projects
  {
    if |projects| == 0 then []
    else if projects[0].path == path then Remove(projects[1..], path)
    else [projects[0]] + Remove(projects[1..], path)
  }

  lemma {:induction false} SubsequenceLength<T>(a: seq<T>, b: seq<T>)
    requires IsSubsequence(a, b)
    ensures |a| <= |b|
    decreases |b|
  {
    if |a| > 0 {
      if a[0] == b[0] && IsSubsequence(a[1..], b[1..]) {
        SubsequenceLength(a[1..], b[1..]);
      } else {
        SubsequenceLength(a, b[1..]);
      }
    }
  }

  lemma {:induction false} SubsequenceOfSameLength<T>(a: seq<T>, b: seq<T>)
    requires IsSubsequence(a, b) && |a| >= |b|
    ensures a == b
    decreases |b|
  {
    if |a| > 0 {
      if a[0] == b[0] && IsSubsequence(a[1..], b[1..]) {
        SubsequenceOfSameLength(a[1..], b[1..]);
        assert a == [a[0]] + a[1..] && b == [b[0]] + b[1..];
      } else {
        SubsequenceLength(a, b[1..]);
        assert false;
      }
    }
  }

  lemma {:induction false} SubsequenceAvoidingPath(r: seq<Project>, projects: seq<Project>, path: string)
    requires IsSubsequence(r, projects)
    requires forall x :: x in r ==> x.path != path
    ensures IsSubsequence(r, Remove(projects, path))
    decreases |projects|
  {
    if |r| > 0 {
      var rest := Remove(projects[1..], path);
      if r[0] == projects[0] && IsSubsequence(r[1..], projects[1..]) {
        assert r[0] in r;
        assert forall x :: x in r[1..] ==> x in r;
        SubsequenceAvoidingPath(r[1..], projects[1..], path);
        assert Remove(projects, path) == [projects[0]] + rest;
        assert ([projects[0]] + rest)[1..] == rest;
      } else {
        SubsequenceAvoidingPath(r, projects[1..], path);
        if projects[0].path != path {
          assert Remove(projects, path) == [projects[0]] + rest;
          assert ([projects[0]] + rest)[1..] == rest;
        }
      }
    }
  }

  /** Remove is the only way to delete the entries under `path` and nothing
      else: any order-preserving selection from the registry that avoids
      `path` and is at least as long as Remove's result is that result. */
  lemma RemoveIsUnique(projects: seq<Project>, path: string, r: seq<Project>)
    requires IsSubsequence(r, projects)
    requires forall x :: x in r ==> x.path != path
    requires |r| >= |projects| - CountPath(projects, path)
    ensures r == Remove(projects, path)
  {
    SubsequenceAvoidingPath(r, projects, path);
    SubsequenceOfSameLength(r, Remove(projects, path));
  }

  lemma {:induction false} RemoveDistributes(a: seq<Project>, b: seq<Project>, path: string)
    ensures Remove(a + b, path) == Remove(a, path) + Remove(b, path)
    decreases |a|
  {
    if |a| > 0 {
      assert (a + b)[0] == a[0];
      assert (a + b)[1..] == a[1..] + b;
      RemoveDistributes(a[1..], b, path);
      if a[0].path == path {
        assert Remove(a + b, path) == Remove(a[1..] + b, path);
        assert Remove(a, path) == Remove(a[1..], path);
      } else {
        assert Remove(a + b, path) == [a[0]] + Remove(a[1..] + b, path);
        assert Remove(a, path) == [a[0]] + Remove(a[1..], path);
      }
    } else {
      assert a + b == b;
    }
  }

  lemma {:induction false} CountPathAppend(a: seq<Project>, b: seq<Project>, path: string)
    ensures CountPath(a + b, path) == CountPath(a, path) + CountPath(b, path)
    decreases |a|
  {
    if |a| > 0 {
      assert (a + b)[1..] == a[1..] + b;
      CountPathAppend(a[1..], b, path);
    } else {
      assert a + b == b;
    }
  }

  /** Adding a folder and then removing it leaves the registry as removing it
      alone would: the new entry and every older entry under that path go. */
  lemma RemoveUndoesAdd(projects: seq<Project>, path: string)
    ensures Remove(Add(projects, path), path) == Remove(projects, path)
  {
    RemoveDistributes(projects, [Project(Basename(path), path)], path);
  }

  /** Removing one path and adding another commute. */
  lemma RemoveCommutesWithAddOfOtherPath(projects: seq<Project>, removed: string, added: string)
    requires removed != added
    ensures Remove(Add(projects, added), removed) == Add(Remove(projects, removed), added)
  {
    RemoveDistributes(projects, [Project(Basename(added), added)], removed);
  }

  /** Adding a path that is already registered registers it once more. */
  lemma AddKeepsDuplicates(projects: seq<Project>, path: string)
    ensures CountPath(Add(projects, path), path) == CountPath(projects, path) + 1
  {
    CountPathAppend(projects, [Project(Basename(path), path)], path);
  }
}

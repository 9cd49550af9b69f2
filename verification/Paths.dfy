/** Path splitting (client/util.cpp, set_name_bound and the component loop in client/in_memory/directory_table.cpp). */
module Paths {

  /** A name, a rejected path, or a read outside the string. */
  datatype Result = Ok(value: string) | Invalid | OutOfBounds

  /** `i` is the last slash of the path. */
  predicate LastSlash(path: string, i: int) {
    0 <= i < |path| && path[i] == '/' && forall k :: i < k < |path| ==> path[k] != '/'
  }

  /** The part before the last slash, or the root. */
  method ParentDirPath(path: string) returns (r: Result)
    ensures r.Ok? <==> '/' in path
    ensures r.Ok? ==> exists i :: LastSlash(path, i) && r.value == if i == 0 then "/" else path[..i]
    ensures !r.Ok? ==> r == Invalid
  {
    if path == "" { return Invalid; }
    var i := |path| - 1;
    while i > 0
      invariant 0 <= i < |path| && forall k :: i < k < |path| ==> path[k] != '/'
    {
      if path[i] == '/' {
        assert LastSlash(path, i);
        return Ok(path[..i]);
      }
      i := i - 1;
    }
    if path[0] == '/' {
      assert LastSlash(path, 0);
      return Ok(path[..1]);
    }
    return Invalid;
  }

  /** The part after the last slash; the index is unsigned, so without a slash the loop runs off the front. */
  method FilenameFromPath(path: string) returns (r: Result)
    ensures path == "" ==> r == Invalid
    ensures path == "/" ==> r == Ok("/")
    ensures path != "" && '/' !in path ==> r == OutOfBounds
    ensures path != "/" && '/' in path ==> r.Ok? && exists i :: LastSlash(path, i) && r.value == path[i + 1..]
  {
    if path == "" { return Invalid; }
    if |path| == 1 && path[0] == '/' { return Ok(path[..1]); }
    var i := |path| - 1;
    while i >= 0
      invariant -1 <= i < |path| && forall k :: i < k < |path| ==> path[k] != '/'
    {
      if path[i] == '/' {
        assert LastSlash(path, i);
        return Ok(path[i + 1..]);
      }
      i := i - 1;
    }
    return OutOfBounds;
  }

  /** The first slash at or after `start`, or the end of the path. */
  function NextSlash(path: string, start: nat): (e: nat)
    requires start <= |path|
    ensures start <= e <= |path|
    decreases |path| - start
  {
    if start == |path| || path[start] == '/' then start else NextSlash(path, start + 1)
  }

  lemma {:induction false} NextSlashIs(path: string, start: nat)
    requires start <= |path|
    ensures NextSlash(path, start) < |path| ==> path[NextSlash(path, start)] == '/'
    ensures forall k :: start <= k < NextSlash(path, start) ==> path[k] != '/'
    decreases |path| - start
  {
    if start < |path| && path[start] != '/' { NextSlashIs(path, start + 1); }
  }

  function NamesFrom(path: string, start: nat): seq<string>
    decreases |path| - start
  {
    if start >= |path| then []
    else
      var e := NextSlash(path, start);
      [path[start..e]] + NamesFrom(path, e + 1)
  }

  /** The names the traversal looks up; the first character is skipped unseen. */
  function Visited(path: string): seq<string> { NamesFrom(path, 1) }

  /** set_name_bound: the bounds of the name after the one that ends at `endName`. */
  method SetNameBound(path: string, endName: int) returns (more: bool, start: nat, end: int)
    requires -1 <= endName
    ensures start == endName + 2 && (more <==> start < |path|)
    ensures end == if more then NextSlash(path, start) - 1 else endName
    ensures more ==>
      && start <= end + 1 <= |path| && (end + 1 < |path| ==> path[end + 1] == '/')
      && forall k :: start <= k <= end ==> path[k] != '/'
  {
    start, end := endName + 2, endName;
    if start >= |path| { return false, start, end; }
    NextSlashIs(path, start);
    var i := start;
    while i < |path|
      invariant start <= i <= |path| && NextSlash(path, i) == NextSlash(path, start)
    {
      if path[i] == '/' {
        return true, start, i - 1;
      }
      i := i + 1;
    }
    return true, start, i - 1;
  }

  /** The component loop of path_traversal, as far as the names go. */
  method Traverse(path: string) returns (names: seq<string>)
    ensures names == Visited(path)
  {
    names := [];
    var endName := -1;
    while true
      invariant -1 <= endName && Visited(path) == names + NamesFrom(path, endName + 2)
      decreases |path| - endName
    {
      var more, start, end := SetNameBound(path, endName);
      if !more { break; }
      names, endName := names + [path[start..end + 1]], end;
    }
  }

  // ---- The pieces fit together ----

  /** Absolute, not the root, no empty component and no slash at the end. */
  predicate Proper(path: string) {
    && |path| > 1 && path[0] == '/' && path[|path| - 1] != '/'
    && forall j, k :: 0 <= j < |path| && 0 <= k < |path| && k == j + 1 && path[j] == '/' ==> path[k] != '/'
  }

  function Join(names: seq<string>): string {
    if names == [] then "" else "/" + names[0] + Join(names[1..])
  }

  lemma {:induction false} JoinFrom(path: string, start: nat)
    requires 0 < start < |path| && path[start - 1] == '/' && path[|path| - 1] != '/'
    ensures Join(NamesFrom(path, start)) == path[start - 1..]
    decreases |path| - start
  {
    var e := NextSlash(path, start);
    NextSlashIs(path, start);
    FirstName(path, start, e);
    JoinFirst(path[start..e], NamesFrom(path, e + 1));
    Pieces(path, start, e);
    if e < |path| {
      assert path[e] == '/' && e + 1 < |path|;
      JoinFrom(path, e + 1);
    } else {
      assert NamesFrom(path, e + 1) == [] && path[e..] == "";
    }
  }

  lemma JoinFirst(name: string, names: seq<string>)
    ensures Join([name] + names) == "/" + name + Join(names)
  {
    assert ([name] + names)[1..] == names;
  }

  lemma Pieces(path: string, start: nat, e: nat)
    requires 0 < start <= e <= |path| && path[start - 1] == '/'
    ensures path[start - 1..] == "/" + path[start..e] + path[e..]
  {
  }

  /** Every component is a name: not empty, and without a slash. */
  lemma {:induction false} NamesAreNames(path: string, start: nat, k: nat)
    requires Proper(path) && 0 < start && (start < |path| ==> path[start - 1] == '/') && k < |NamesFrom(path, start)|
    ensures NamesFrom(path, start)[k] != "" && '/' !in NamesFrom(path, start)[k]
    decreases |path| - start
  {
    var e := NextSlash(path, start);
    NextSlashIs(path, start);
    FirstName(path, start, e);
    if k > 0 {
      NamesAreNames(path, e + 1, k - 1);
    } else {
      assert path[start - 1] == '/' && path[start] != '/';
    }
  }

  lemma {:induction false} NoSlashLeft(path: string, start: nat)
    requires start < |path| && forall k :: start <= k < |path| ==> path[k] != '/'
    ensures NamesFrom(path, start) == [path[start..]]
  {
    NextSlashIs(path, start);
    assert path[start..|path|] == path[start..];
  }

  lemma {:induction false} SplitFrom(path: string, parent: string, i: nat, start: nat)
    requires Proper(path) && LastSlash(path, i) && parent == path[..i] && 0 < start < i && path[start - 1] == '/'
    ensures NamesFrom(path, start) == NamesFrom(parent, start) + [path[i + 1..]]
    decreases i - start
  {
    var e := NextSlash(path, start);
    NextSlashIs(path, start);
    PrefixSlash(path, i, start);
    SamePiece(path, parent, start, e);
    if e == i {
      NoSlashLeft(path, i + 1);
      assert NamesFrom(parent, e + 1) == [];
    } else {
      assert path[e] == '/' && path[e + 1] != '/' && path[i] == '/';
      assert e + 1 < i;
      SplitFrom(path, parent, i, e + 1);
    }
    FirstName(path, start, e);
    FirstName(parent, start, e);
    OneInFront(path[start..e], NamesFrom(parent, e + 1), NamesFrom(path, e + 1), path[i + 1..]);
  }

  lemma SamePiece(path: string, parent: string, start: nat, e: nat)
    requires start <= e <= |parent| <= |path| && parent == path[..|parent|]
    ensures path[start..e] == parent[start..e]
  {
    forall k | 0 <= k < e - start ensures path[start..e][k] == parent[start..e][k] {}
  }

  lemma FirstName(path: string, start: nat, e: nat)
    requires start < |path| && e == NextSlash(path, start)
    ensures NamesFrom(path, start) == [path[start..e]] + NamesFrom(path, e + 1)
  {
  }

  lemma OneInFront(name: string, a: seq<string>, b: seq<string>, file: string)
    requires b == a + [file]
    ensures [name] + b == ([name] + a) + [file]
  {
  }

  lemma {:induction false} PrefixSlash(path: string, i: nat, start: nat)
    requires LastSlash(path, i) && start <= i
    ensures NextSlash(path[..i], start) == NextSlash(path, start) <= i
    decreases i - start
  {
    if start < i && path[start] != '/' { PrefixSlash(path, i, start + 1); }
  }

  /**
    Path splitting is compositional: the names visited for a path are those visited for its parent followed
    by its file name, and joined with slashes they give the path back.
   */
  lemma SplitsAndJoins(path: string, i: nat)
    requires Proper(path) && LastSlash(path, i)
    ensures Visited(path) == Visited(if i == 0 then "/" else path[..i]) + [path[i + 1..]]
    ensures Join(Visited(path)) == path
  {
    JoinFrom(path, 1);
    assert path[0..] == path;
    if i == 0 {
      NoSlashLeft(path, 1);
    } else {
      assert path[1] != '/';
      SplitFrom(path, path[..i], i, 1);
    }
  }

  /** The same for the functions as they run: the traversal of a path is that of its parent, then its file name. */
  method SplitAndTraverse(path: string) returns (names: seq<string>)
    requires Proper(path)
    ensures names == Visited(path) && Join(names) == path
  {
    var parent := ParentDirPath(path);
    var file := FilenameFromPath(path);
    ghost var i :| LastSlash(path, i) && parent.value == if i == 0 then "/" else path[..i];
    SplitsAndJoins(path, i);
    names := Traverse(parent.value);
    names := names + [file.value];
  }
}

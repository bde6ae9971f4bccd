/** Checkmk folder paths such as `~production~db`: the payload that
    `create_folder` posts, and the single folder `create_folder_recursive`
    goes for (autohosts/checkmk.py). */
module FolderPath {
  import opened Wrappers
  import opened Text

  /** The separator between folder path segments; `~` alone is the root. */
  const Sep := '~'

  /** The JSON body of a folder creation (the empty `attributes` left out). */
  datatype FolderPayload = FolderPayload(name: string, title: string, parent: string)

  /** A canonical path below the root: `~s1~s2...~sk` with k >= 1 non-empty
      segments. Every entry of `FOLDERS` has this shape. */
  predicate WellFormed(path: string)
  {
    var segs := Split(path, Sep);
    |segs| >= 2 && segs[0] == "" && forall i :: 1 <= i < |segs| ==> segs[i] != ""
  }

  /** Number of segments below the root. */
  function Depth(path: string): nat
  {
    |Split(path, Sep)| - 1
  }

  /** The payload `create_folder` builds for `path`: name and title are the
      last segment; the parent is the other segments joined by `~`, or the
      root `~` when that join is empty. */
  function PayloadFor(path: string): (p: FolderPayload)
    ensures p.title == p.name && Sep !in p.name
    ensures |p.name| <= |path| && path[|path| - |p.name|..] == p.name
    ensures Depth(path) == 0 ==> p.name == path && p.parent == [Sep]
    ensures Depth(path) >= 1 ==> |p.name| < |path| && path[|path| - |p.name| - 1] == Sep
  {
    var segs := Split(path, Sep);
    var last := segs[|segs| - 1];
    var joined := Join(segs[..|segs| - 1], Sep);
    var p := FolderPayload(last, last, if joined == "" then [Sep] else joined);
    if |segs| >= 2 then
      JoinLast(segs, Sep);
      assert path == joined + [Sep] + last;
      p
    else
      p
  }

  /** Joining splits off the last piece. */
  lemma {:induction false} JoinLast(parts: seq<string>, sep: char)
    requires |parts| >= 2
    ensures Join(parts, sep) == Join(parts[..|parts| - 1], sep) + [sep] + parts[|parts| - 1]
  {
    if |parts| > 2 {
      JoinLast(parts[1..], sep);
      assert parts[1..][..|parts| - 2] == parts[..|parts| - 1][1..];
    }
  }

  /** The path of the folder the server creates from a payload: the parent
      followed by `~` and the name, with the root parent written as nothing. */
  function PathOf(p: FolderPayload): string
  {
    (if p.parent == [Sep] then "" else p.parent) + [Sep] + p.name
  }

  /** The server rebuilds exactly the requested path from the payload of a
      canonical path: name, title and parent lose nothing. */
  lemma {:induction false} PayloadRoundTrip(path: string)
    requires WellFormed(path)
    ensures PathOf(PayloadFor(path)) == path
  {
    var segs := Split(path, Sep);
    var init := segs[..|segs| - 1];
    JoinLast(segs, Sep);
    if |init| >= 2 {
      assert init[1] == segs[1] != "";
      JoinLast(init, Sep);
      SplitJoin(init, Sep);
      assert Split([Sep], Sep) == [""] + Split([], Sep) by {
        assert [Sep][1..] == [];
      }
      assert Join(init, Sep) != [Sep];
    }
  }

  /** The folder `create_folder_recursive` creates: its loop returns in the
      first iteration, so it is `~` plus the first segment after the root,
      and nothing at all when the path has no `~`. */
  function FirstLevelFolder(path: string): (t: Option<string>)
    ensures t.None? <==> Sep !in path
  {
    var segs := Split(path, Sep);
    SplitSingle(path, Sep);
    if |segs| >= 2 then Some([Sep] + segs[1]) else None
  }

  /** For a canonical path the folder created is its depth-one ancestor:
      a canonical one-segment path that starts the given path at a segment
      boundary. Deeper segments are never created. */
  lemma {:induction false} FirstLevelIsAncestor(path: string)
    requires WellFormed(path)
    ensures FirstLevelFolder(path).Some?
    ensures var top := FirstLevelFolder(path).value;
            WellFormed(top) && Depth(top) == 1 &&
            top <= path && (|top| == |path| || path[|top|] == Sep) &&
            (Depth(path) >= 2 ==> top != path)
  {
    var segs := Split(path, Sep);
    var top := [Sep] + segs[1];
    assert top == Join(["", segs[1]], Sep);
    SplitJoin(["", segs[1]], Sep);
    if |segs| == 2 {
      assert path == Join(segs, Sep) == top;
    } else {
      assert segs == ["", segs[1]] + segs[2..];
      assert path == Join(segs, Sep) == "" + [Sep] + Join(segs[1..], Sep);
      assert Join(segs[1..], Sep) == segs[1] + [Sep] + Join(segs[2..], Sep);
      assert path == top + [Sep] + Join(segs[2..], Sep);
      assert path[|top|] == Sep;
      assert top <= path;
    }
  }

  /** `~a~b` (for instance `~production~db`) has name and title `b` and
      parent `~a`; `~a` has parent `~`. */
  lemma PayloadOfShortPaths(a: string, b: string)
    requires Sep !in a && Sep !in b
    ensures PayloadFor([Sep] + a + [Sep] + b) == FolderPayload(b, b, [Sep] + a)
    ensures PayloadFor([Sep] + a) == FolderPayload(a, a, [Sep])
  {
    var parts := ["", a, b];
    assert parts[1..] == [a, b] && [a, b][1..] == [b];
    assert Join([a, b], Sep) == a + [Sep] + b;
    assert Join(parts, Sep) == "" + [Sep] + (a + [Sep] + b);
    assert [Sep] + a + [Sep] + b == Join(parts, Sep);
    SplitJoin(parts, Sep);
    assert parts[..2] == ["", a];
    assert ["", a][1..] == [a];
    assert Join(["", a], Sep) == "" + [Sep] + a;
    SplitJoin(["", a], Sep);
    assert ["", a][..1] == [""];
    assert Join([""], Sep) == "";
  }
}

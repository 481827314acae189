/**
 * The parts of Python's pathlib that the pipeline relies on: the final component of
 * a path, its suffix and stem, the video-extension allow-list (`_is_video_file`)
 * and the video id taken from the file name (`_extract_video_id`).
 */
module PathNames {
  import opened Outcomes
  import opened AsciiCase

  /** A path as the text of a normalised POSIX path: components joined by '/'. */
  type Path = string

  /** Python's `str.rfind` for one character: the index of the last `c` in `s`, or -1. */
  function RFind(s: string, c: char): (i: int)
    ensures -1 <= i < |s|
    ensures 0 <= i ==> s[i] == c
    ensures forall k :: i < k < |s| ==> s[k] != c
    decreases |s|
  {
    if s == [] then -1
    else if s[|s| - 1] == c then |s| - 1
    else RFind(s[..|s| - 1], c)
  }

  /** `PurePath.name`: the final component, everything after the last '/'. */
  function Name(p: Path): (n: string)
    ensures |n| <= |p| && n == p[|p| - |n|..]
    ensures forall k :: 0 <= k < |n| ==> n[k] != '/'
    ensures |n| < |p| ==> p[|p| - |n| - 1] == '/'
  {
    p[RFind(p, '/') + 1..]
  }

  /**
   * Where `PurePath.suffix` starts in a name: its last '.', provided that is neither
   * the first nor the last character; -1 when the name has no suffix.
   */
  function SuffixStart(name: string): (i: int)
    ensures i == -1 || 0 < i < |name| - 1
    ensures 0 <= i ==> name[i] == '.' && forall k :: i < k < |name| ==> name[k] != '.'
  {
    var dot := RFind(name, '.');
    if 0 < dot < |name| - 1 then dot else -1
  }

  /** `PurePath.suffix` of a name. */
  function SuffixOf(name: string): (s: string)
    ensures s == [] || (2 <= |s| < |name| && s[0] == '.')
    ensures forall k :: 1 <= k < |s| ==> s[k] != '.'
    ensures s == name[|name| - |s|..]
    ensures s != [] <==> name != [] && name[|name| - 1] != '.' && exists i :: 1 <= i < |name| && name[i] == '.'
  {
    var i := SuffixStart(name);
    if i < 0 then
      assert forall j :: 1 <= j < |name| && name[j] == '.' ==> name[|name| - 1] == '.' by {
        forall j | 1 <= j < |name| && name[j] == '.'
          ensures name[|name| - 1] == '.'
        {
          assert RFind(name, '.') >= j;
        }
      }
      ""
    else name[i..]
  }

  /** `PurePath.stem` of a name: the name without its suffix. */
  function StemOf(name: string): (s: string)
    ensures s + SuffixOf(name) == name
    ensures s == [] <==> name == []
  {
    var i := SuffixStart(name);
    if i < 0 then name else name[..i]
  }

  /** `PurePath.suffix`. */
  function Suffix(p: Path): string
  {
    SuffixOf(Name(p))
  }

  /** `PurePath.stem`. */
  function Stem(p: Path): string
  {
    StemOf(Name(p))
  }

  /** The container formats `_is_video_file` accepts, compared after lower-casing. */
  const VideoExtensions: set<string> := {".mp4", ".mkv", ".webm", ".avi", ".mov", ".flv", ".m4v"}

  /** `_is_video_file`: the lower-cased suffix is on the allow-list. */
  predicate IsVideoFile(p: Path)
  {
    Lower(Suffix(p)) in VideoExtensions
  }

  /** Every allowed extension is a dot followed by at least one character that is not a dot. */
  lemma VideoExtensionShape(e: string)
    requires e in VideoExtensions
    ensures 2 <= |e| && e[0] == '.'
    ensures forall k :: 1 <= k < |e| ==> e[k] != '.'
  {
  }

  /**
   * A name that ends, ignoring ASCII case, in an allowed extension with something
   * before it has exactly that ending as its suffix.
   */
  lemma {:induction false} SuffixOfAllowedEnding(name: string, e: string)
    requires e in VideoExtensions && |e| < |name|
    requires Lower(name[|name| - |e|..]) == e
    ensures SuffixOf(name) == name[|name| - |e|..]
  {
    VideoExtensionShape(e);
    var j := |name| - |e|;
    var tail := name[j..];
    assert name[j] == '.' by {
      assert LowerChar(tail[0]) == e[0];
    }
    forall k | j < k < |name|
      ensures name[k] != '.'
    {
      assert LowerChar(tail[k - j]) == e[k - j];
    }
    assert RFind(name, '.') == j;
  }

  /**
   * `_is_video_file` in terms of the file name alone: the name ends, ignoring ASCII
   * case, with one of the allowed extensions, and something comes before it (a name
   * such as ".mp4" has no suffix in pathlib's sense, so it is not a video file).
   */
  lemma {:induction false} IsVideoFileIff(p: Path)
    ensures IsVideoFile(p) <==>
      exists e :: e in VideoExtensions && |e| < |Name(p)| && Lower(Name(p)[|Name(p)| - |e|..]) == e
  {
    var name := Name(p);
    if IsVideoFile(p) {
      var e := Lower(SuffixOf(name));
      VideoExtensionShape(e);
      assert SuffixOf(name) == name[|name| - |e|..];
    }
    if e :| e in VideoExtensions && |e| < |name| && Lower(name[|name| - |e|..]) == e {
      SuffixOfAllowedEnding(name, e);
    }
  }

  /** `_extract_video_id`: the stem, or None when the stem is empty. */
  function ExtractVideoId(p: Path): (id: Option<string>)
    ensures id.Some? <==> Name(p) != []
    ensures id.Some? ==> id.value == Stem(p) && forall k :: 0 <= k < |id.value| ==> id.value[k] != '/'
  {
    var stem := Stem(p);
    if stem != [] then Some(stem) else None
  }

  /**
   * A path that passes `_is_video_file` always yields a video id: its suffix starts
   * after the first character, so the stem is not empty.
   */
  lemma VideoFileHasVideoId(p: Path)
    requires IsVideoFile(p)
    ensures ExtractVideoId(p) == Some(Stem(p)) && Stem(p) != []
  {
    VideoExtensionShape(Lower(Suffix(p)));
  }

  /**
   * `str(Path(dir) / name)` for a one-component `name` and a normalised `dir`.
   * pathlib drops a "." component, so the current directory adds nothing.
   */
  function Join(dir: Path, name: string): Path
  {
    if dir == [] || dir == "." then name
    else if dir[|dir| - 1] == '/' then dir + name
    else dir + "/" + name
  }

  /** Joining a one-component name onto a directory and taking the final component gives the name back. */
  lemma {:induction false} NameOfJoin(dir: Path, name: string)
    requires name != [] && forall k :: 0 <= k < |name| ==> name[k] != '/'
    ensures Name(Join(dir, name)) == name
  {
    var p := Join(dir, name);
    var j := |p| - |name|;
    assert p[j..] == name;
    if dir != [] && dir != "." {
      assert p[j - 1] == '/';
    }
    forall k | j <= k < |p|
      ensures p[k] != '/'
    {
      assert p[k] == name[k - j];
    }
  }
}

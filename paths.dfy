/**
 * The path helpers the window relies on: QFileInfo::fileName(),
 * QFileInfo::suffix(), QString::toLower() on ASCII text, and the drop
 * handler's image-extension filter.
 */
module Paths {
  import opened Options

  /** The index of the last `c` in `s`, or -1 when `c` does not occur. */
  function LastIndexOf(s: string, c: char): (k: int)
    ensures -1 <= k < |s|
    ensures k >= 0 ==> s[k] == c
    ensures forall j :: k < j < |s| ==> s[j] != c
    decreases |s|
  {
    if s == [] then -1
    else if s[|s| - 1] == c then |s| - 1
    else LastIndexOf(s[..|s| - 1], c)
  }

  /** QFileInfo(path).fileName(): the text after the last '/', all of `path` when it has none. */
  function FileName(path: string): string
  {
    path[LastIndexOf(path, '/') + 1..]
  }

  /**
   * QFileInfo(path).suffix(): the text after the last '.' of the file name,
   * empty when the file name has no '.'.
   */
  function Suffix(path: string): string
  {
    var name := FileName(path);
    var dot := LastIndexOf(name, '.');
    if dot < 0 then [] else name[dot + 1..]
  }

  /** The file name is the longest tail of the path without a '/'. */
  lemma FileNameIsLastComponent(path: string)
    ensures var name := FileName(path);
      && |name| <= |path|
      && name == path[|path| - |name|..]
      && (forall i :: 0 <= i < |name| ==> name[i] != '/')
      && (|name| < |path| ==> path[|path| - |name| - 1] == '/')
  {
  }

  /** The suffix is a tail of the file name without a '.', and is empty when the file name has no '.'. */
  lemma SuffixIsDotFreeTail(path: string)
    ensures var name, ext := FileName(path), Suffix(path);
      && |ext| <= |name|
      && ext == name[|name| - |ext|..]
      && (forall i :: 0 <= i < |ext| ==> ext[i] != '.')
      && ((forall i :: 0 <= i < |name| ==> name[i] != '.') ==> ext == [])
  {
    var name := FileName(path);
    var dot := LastIndexOf(name, '.');
    if dot < 0 {
      assert Suffix(path) == [];
    } else {
      var ext := name[dot + 1..];
      assert Suffix(path) == ext;
      assert name[dot] == '.';
      assert |name| - |ext| == dot + 1;
      forall i | 0 <= i < |ext| ensures ext[i] != '.' {
        assert ext[i] == name[dot + 1 + i];
      }
    }
  }

  /** When the file name has a '.' at `i`, the suffix starts right after a '.' at `i` or later: the last one. */
  lemma SuffixFollowsLastDot(path: string, i: nat)
    requires i < |FileName(path)| && FileName(path)[i] == '.'
    ensures var name, ext := FileName(path), Suffix(path);
      && |ext| < |name|
      && i <= |name| - |ext| - 1
      && name[|name| - |ext| - 1] == '.'
  {
    var name := FileName(path);
    var dot := LastIndexOf(name, '.');
    assert i <= dot;
    var ext := name[dot + 1..];
    assert Suffix(path) == ext;
    assert |name| - |ext| - 1 == dot;
  }

  /** ASCII lower-casing of one character; every other character is kept. */
  function LowerAscii(c: char): char
  {
    if 'A' <= c <= 'Z' then (c as int - 'A' as int + 'a' as int) as char else c
  }

  /** QString::toLower() on ASCII text. */
  function ToLowerAscii(s: string): (r: string)
    ensures |r| == |s|
  {
    seq(|s|, i requires 0 <= i < |s| => LowerAscii(s[i]))
  }

  /** Lower-casing maps every character on its own: ASCII capitals to small letters, the rest unchanged. */
  lemma ToLowerAsciiAt(s: string, i: nat)
    requires i < |s|
    ensures !('A' <= ToLowerAscii(s)[i] <= 'Z')
    ensures 'A' <= s[i] <= 'Z' ==> ToLowerAscii(s)[i] as int == s[i] as int + 32
    ensures !('A' <= s[i] <= 'Z') ==> ToLowerAscii(s)[i] == s[i]
  {
  }

  /** The extensions the drop handler accepts, compared after lower-casing. */
  const ImageExtensions: set<string> := {"png", "jpg", "jpeg", "bmp", "gif", "tiff", "tif", "webp"}

  predicate IsImageFile(path: string)
  {
    ToLowerAscii(Suffix(path)) in ImageExtensions
  }

  /** The index of the first element `accept` holds of, if any. */
  function FirstWhere(xs: seq<string>, accept: string -> bool): (k: Option<nat>)
    ensures k.Some? ==> k.value < |xs| && accept(xs[k.value])
    ensures k.Some? ==> forall j :: 0 <= j < k.value ==> !accept(xs[j])
    ensures k.None? <==> forall j :: 0 <= j < |xs| ==> !accept(xs[j])
    decreases |xs|
  {
    if xs == [] then None
    else if accept(xs[0]) then Some(0)
    else match FirstWhere(xs[1..], accept)
      case None => None
      case Some(j) => Some(j + 1)
  }

  /** The index of the first path with an image extension: the one the drop handler loads. */
  function FirstImageIndex(paths: seq<string>): (k: Option<nat>)
    ensures k.Some? ==> k.value < |paths| && IsImageFile(paths[k.value])
    ensures k.Some? ==> forall j :: 0 <= j < k.value ==> !IsImageFile(paths[j])
    ensures k.None? <==> forall j :: 0 <= j < |paths| ==> !IsImageFile(paths[j])
  {
    FirstWhere(paths, IsImageFile)
  }

  /** The last occurrence is determined by the character there and the characters after it. */
  lemma LastIndexOfIs(s: string, c: char, k: int)
    requires -1 <= k < |s|
    requires k >= 0 ==> s[k] == c
    requires forall j :: k < j < |s| ==> s[j] != c
    ensures LastIndexOf(s, c) == k
  {
  }

  lemma UpperCaseExtensionAccepted()
    ensures FileName("/img/cat.PNG") == "cat.PNG"
    ensures Suffix("/img/cat.PNG") == "PNG"
    ensures IsImageFile("/img/cat.PNG")
  {
    var path := "/img/cat.PNG";
    LastIndexOfIs(path, '/', 4);
    assert FileName(path) == "cat.PNG";
    LastIndexOfIs("cat.PNG", '.', 3);
    assert Suffix(path) == "PNG";
    assert ToLowerAscii("PNG") == "png";
  }

  lemma SuffixComesFromFileName()
    ensures FileName("/photos.png/notes") == "notes"
    ensures Suffix("/photos.png/notes") == []
    ensures !IsImageFile("/photos.png/notes")
  {
    var path := "/photos.png/notes";
    LastIndexOfIs(path, '/', 11);
    assert FileName(path) == "notes";
    LastIndexOfIs("notes", '.', -1);
    assert Suffix(path) == [];
    assert ToLowerAscii([]) == [];
  }

  lemma SuffixIsLastExtensionOnly()
    ensures Suffix("b.png.txt") == "txt"
    ensures !IsImageFile("b.png.txt")
  {
    var path := "b.png.txt";
    LastIndexOfIs(path, '/', -1);
    assert FileName(path) == path;
    LastIndexOfIs(path, '.', 5);
    assert Suffix(path) == "txt";
    assert ToLowerAscii("txt") == "txt";
  }
}

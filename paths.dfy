/** `get_modified_filePath`: the name of an output file, made by putting a
    modifier between the stem and the extension of the input file's name. */
module Paths {
  import opened Options

  /** `s.find_last_of(c)`, with `None` standing for `npos`. */
  function LastIndexOf(s: string, c: char): (k: Option<nat>)
    ensures k.Some? ==> k.value < |s| && s[k.value] == c && c !in s[k.value + 1..]
    ensures k.None? ==> c !in s
  {
    if s == [] then None
    else if s[|s| - 1] == c then Some(|s| - 1)
    else
      var k := LastIndexOf(s[..|s| - 1], c);
      assert k.Some? ==> s[k.value + 1..] == s[..|s| - 1][k.value + 1..] + [s[|s| - 1]];
      assert s == s[..|s| - 1] + [s[|s| - 1]];
      k
  }

  /** The output name: `modifier` goes in front of the last dot. `None`
      stands for the error exit, taken when the name has no dot or its only
      last dot is its first character. */
  function ModifiedFilePath(path: string, modifier: string): (r: Option<string>)
    ensures r.Some? ==> |r.value| == |path| + |modifier|
  {
    match LastIndexOf(path, '.')
    case Some(k) => if k > 0 then Some(path[..k] + modifier + path[k..]) else None
    case None => None
  }

  /** A name ending in a dot and a dot-free run has its last dot there. */
  lemma {:induction false} LastDotOfExtension(stem: string, ext: string)
    requires |ext| > 0 && ext[0] == '.' && '.' !in ext[1..]
    ensures LastIndexOf(stem + ext, '.') == Some(|stem|)
    decreases |ext|
  {
    var s := stem + ext;
    if |ext| > 1 {
      assert s[|s| - 1] == ext[|ext| - 1] && ext[|ext| - 1] in ext[1..];
      assert s[..|s| - 1] == stem + ext[..|ext| - 1];
      assert ext[..|ext| - 1][1..] == ext[1..|ext| - 1];
      LastDotOfExtension(stem, ext[..|ext| - 1]);
    }
  }

  /** The error exit is taken exactly when the name has no dot after its
      first character. */
  lemma ModifiedFilePathFails(path: string, modifier: string)
    ensures ModifiedFilePath(path, modifier).None? <==> forall j :: 0 < j < |path| ==> path[j] != '.'
  {
    match LastIndexOf(path, '.')
    case None =>
    case Some(k) =>
      if k == 0 {
        forall j | 0 < j < |path|
          ensures path[j] != '.'
        {
          assert path[j] in path[k + 1..];
        }
      }
  }

  /** A name made of a non-empty stem and an extension from its last dot
      becomes stem, modifier and extension: dropping the modifier gives the
      name back, and the extension stays the extension of the new name. */
  lemma ModifiedFilePathOfSplit(stem: string, ext: string, modifier: string)
    requires |stem| > 0 && |ext| > 0 && ext[0] == '.' && '.' !in ext[1..]
    ensures ModifiedFilePath(stem + ext, modifier) == Some(stem + modifier + ext)
    ensures LastIndexOf(stem + modifier + ext, '.') == Some(|stem| + |modifier|)
  {
    var path := stem + ext;
    LastDotOfExtension(stem, ext);
    assert path[..|stem|] == stem && path[|stem|..] == ext;
    assert stem + modifier + ext == (stem + modifier) + ext;
    LastDotOfExtension(stem + modifier, ext);
  }
}

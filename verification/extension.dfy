/** `getFileExtension`: the lower-cased text after the last dot of a file name. */
module Extension {
  import opened Strings

  /**
   * The extension is the longest dot-free suffix of the name, lower-cased:
   * the whole name when it has no dot, and "" when it ends with a dot.
   */
  function FileExtension(name: string): (ext: string)
    ensures '.' !in ext
    ensures |ext| <= |name|
    ensures ext == Lower(name[|name| - |ext|..])
    ensures |ext| == |name| || name[|name| - |ext| - 1] == '.'
    ensures '.' !in name ==> ext == Lower(name)
    ensures |name| > 0 && name[|name| - 1] == '.' ==> ext == ""
  {
    var piece := Last(Split(name, '.'));
    LastPieceIsTail(name, '.');
    var ext := Lower(piece);
    assert forall i :: 0 <= i < |ext| ==> ext[i] != '.' by {
      forall i | 0 <= i < |ext| ensures ext[i] != '.' {
        assert piece[i] != '.';
      }
    }
    ext
  }
}

/** Image paths relative to the page: toImgPath and the one file the page knows exists. */
module Paths {
  import opened Strings

  const ImgDir: string := "img/"

  /** The file probed unconditionally and used as the last-resort slide. */
  const KnownFile: string := "img/justin4_720.jpg"

  /** The test /^img\// of toImgPath. */
  predicate HasImgPrefix(p: string) {
    StartsWith(p, ImgDir)
  }

  /** toImgPath: prefix "img/" unless the path already begins with it. */
  function ToImgPath(p: string): (r: string)
    ensures HasImgPrefix(r)
    ensures HasImgPrefix(p) ==> r == p
    ensures r == p || r == ImgDir + p
    ensures |p| <= |r| && r[|r| - |p|..] == p
  {
    if HasImgPrefix(p) then p else ImgDir + p
  }

  lemma ToImgPathIdempotent(p: string)
    ensures ToImgPath(ToImgPath(p)) == ToImgPath(p)
  {
  }

  /** Every entry of a list passed through toImgPath (Array.prototype.map). */
  function MapToImgPath(ps: seq<string>): (r: seq<string>)
    ensures |r| == |ps|
    ensures forall i :: 0 <= i < |ps| ==> r[i] == ToImgPath(ps[i])
  {
    seq(|ps|, i requires 0 <= i < |ps| => ToImgPath(ps[i]))
  }
}

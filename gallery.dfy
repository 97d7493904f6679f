/** The uploaded gallery: the list saved under the 'gallery' key, appended by the uploader, removed by
    the clear button. */
module GalleryStore {
  import opened Wrappers

  /** At most this many files of one selection are read. */
  const MaxUpload: nat := 12

  /** What local storage holds under 'gallery'. */
  datatype Stored = Missing | Json(items: seq<string>) | Malformed

  /** JSON.parse(getItem('gallery') || '[]'): a missing key reads as the empty list, malformed JSON throws. */
  function Parse(v: Stored): (r: Option<seq<string>>)
    ensures r.None? <==> v.Malformed?
    ensures v.Json? ==> r == Some(v.items)
    ensures v.Missing? ==> r == Some([])
  {
    match v
    case Missing => Some([])
    case Json(items) => Some(items)
    case Malformed => None
  }

  /** The selection cut to its first twelve files ([...files].slice(0, 12)), each read by fileToDataURL. */
  function Converted<F>(files: seq<F>, toDataUrl: F -> string): (r: seq<string>)
    ensures |r| <= MaxUpload && |r| <= |files|
    ensures |r| == MaxUpload || |r| == |files|
    ensures forall k :: 0 <= k < |r| ==> r[k] == toDataUrl(files[k])
  {
    var n := if |files| < MaxUpload then |files| else MaxUpload;
    seq(n, k requires 0 <= k < n => toDataUrl(files[k]))
  }

  /** A selection of fifteen files: only the first twelve are read and saved. */
  lemma FifteenFilesKeepTwelve<F>(files: seq<F>, toDataUrl: F -> string)
    requires |files| == 15
    ensures Converted(files, toDataUrl) == Converted(files[..12], toDataUrl)
    ensures |Converted(files, toDataUrl)| == 12
  {
  }

  class Gallery {
    /** safeLocalStorage() returned a store */
    const storeAvailable: bool
    /** the 'gallery' entry of local storage */
    var stored: Stored

    constructor (storeAvailable: bool, stored: Stored)
      ensures this.storeAvailable == storeAvailable && this.stored == stored
    {
      this.storeAvailable := storeAvailable;
      this.stored := stored;
    }

    /** The uploader's change handler. `writeOk` says whether setItem('gallery', …) succeeds; it
        throws when the list exceeds the storage quota. The result is the list the handler completes
        with, or None when it throws: when reading the saved list throws (before any file is read), or
        when the write throws (nothing is saved). */
    method Upload<F>(files: seq<F>, toDataUrl: F -> string, writeOk: bool) returns (saved: Option<seq<string>>)
      modifies this
      ensures !storeAvailable ==> saved == Some(Converted(files, toDataUrl)) && stored == old(stored)
      ensures storeAvailable && old(stored).Malformed? ==> saved.None? && stored == old(stored)
      ensures storeAvailable && !old(stored).Malformed? && writeOk ==>
        saved == Some(Parse(old(stored)).value + Converted(files, toDataUrl)) && stored == Json(saved.value)
      ensures storeAvailable && !writeOk ==> saved.None? && stored == old(stored)
    {
      var start: seq<string> := [];
      if storeAvailable {
        var parsed := Parse(stored);
        if parsed.None? {
          return None;
        }
        start := parsed.value;
      }
      var selected := if |files| > MaxUpload then files[..MaxUpload] else files;
      var list := start;
      for k := 0 to |selected|
        invariant |list| == |start| + k && list[..|start|] == start
        invariant forall j :: 0 <= j < k ==> list[|start| + j] == toDataUrl(selected[j])
      {
        list := list + [toDataUrl(selected[k])];
      }
      assert list == start + Converted(files, toDataUrl);
      if storeAvailable {
        if !writeOk {
          return None;
        }
        stored := Json(list);
      }
      saved := Some(list);
    }

    /** The clear button: removeItem('gallery'). */
    method Clear()
      modifies this
      ensures stored == if storeAvailable then Missing else old(stored)
    {
      if storeAvailable {
        stored := Missing;
      }
    }
  }
}

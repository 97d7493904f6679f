/** getSlideSourcesAsync: the priority chain that picks the slideshow's image sources, and the
    slideshow build that uses it. */
module Sources {
  import opened Wrappers
  import opened Paths
  import opened Discovery
  import opened GalleryStore
  import opened Slides

  /** The last-resort list. */
  const Fallback: seq<string> := [KnownFile]

  /** The saved gallery as the third tier reads it: nothing without storage or when JSON.parse throws. */
  function SavedList(storeAvailable: bool, stored: Stored): (r: Option<seq<string>>)
    ensures r.Some? <==> storeAvailable && !stored.Malformed?
    ensures r.Some? ==> r == Parse(stored)
    ensures storeAvailable && stored.Json? ==> r == Some(stored.items)
  {
    if storeAvailable then Parse(stored) else None
  }

  /** The chain once discovery has run: discovered files, window.JB_IMAGES (None when it is not an
      array) through toImgPath, the saved gallery verbatim, then the fallback. */
  function ChooseSources(discovered: seq<string>, jbImages: Option<seq<string>>, saved: Option<seq<string>>): (r: seq<string>)
    ensures |r| > 0
  {
    if |discovered| > 0 then discovered
    else if jbImages.Some? && |jbImages.value| > 0 then MapToImgPath(jbImages.value)
    else if saved.Some? && |saved.value| > 0 then saved.value
    else Fallback
  }

  /** An independent statement of the chain: the first non-empty list among the tiers. */
  function FirstNonEmpty(tiers: seq<seq<string>>): seq<string> {
    if tiers == [] then [] else if |tiers[0]| > 0 then tiers[0] else FirstNonEmpty(tiers[1..])
  }

  function Tiers(discovered: seq<string>, jbImages: Option<seq<string>>, saved: Option<seq<string>>): seq<seq<string>> {
    [discovered,
     if jbImages.Some? then MapToImgPath(jbImages.value) else [],
     if saved.Some? then saved.value else [],
     Fallback]
  }

  /** Tiers are tried in order and the first non-empty one wins wholesale; nothing is merged. */
  lemma {:induction false} ChooseIsFirstNonEmpty(discovered: seq<string>, jbImages: Option<seq<string>>, saved: Option<seq<string>>)
    ensures ChooseSources(discovered, jbImages, saved) == FirstNonEmpty(Tiers(discovered, jbImages, saved))
  {
    var t := Tiers(discovered, jbImages, saved);
    assert FirstNonEmpty(t) == if |t[0]| > 0 then t[0] else FirstNonEmpty(t[1..]);
    assert FirstNonEmpty(t[1..]) == if |t[1]| > 0 then t[1] else FirstNonEmpty(t[2..]);
    assert FirstNonEmpty(t[2..]) == if |t[2]| > 0 then t[2] else FirstNonEmpty(t[3..]);
    assert t[3..] == [Fallback];
    assert FirstNonEmpty([Fallback]) == Fallback;
  }

  /** Each tier lists only what it is built from: the result is the discovered list, the normalised
      developer list, the saved list or the fallback. */
  lemma ChooseTiers(discovered: seq<string>, jbImages: Option<seq<string>>, saved: Option<seq<string>>)
    ensures var r := ChooseSources(discovered, jbImages, saved);
      (|discovered| > 0 ==> r == discovered) &&
      (|discovered| == 0 && jbImages.Some? && |jbImages.value| > 0 ==> r == MapToImgPath(jbImages.value)) &&
      (|discovered| == 0 && (jbImages.None? || jbImages.value == []) && saved.Some? && |saved.value| > 0 ==> r == saved.value) &&
      (|discovered| == 0 && (jbImages.None? || jbImages.value == []) && (saved.None? || saved.value == []) ==> r == Fallback)
  {
  }

  /** getSlideSourcesAsync with its effects as inputs: the manifest fetch, the image-load oracle, the
      global JB_IMAGES and the storage contents. */
  method GetSlideSources(manifest: Option<seq<string>>, loads: string -> bool, jbImages: Option<seq<string>>,
                         storeAvailable: bool, stored: Stored) returns (sources: seq<string>)
    ensures sources == ChooseSources(Discovered(manifest, loads), jbImages, SavedList(storeAvailable, stored))
    ensures |sources| > 0
  {
    var discovered := Discover(manifest, loads);
    if |discovered| > 0 {
      return discovered;
    }
    if jbImages.Some? && |jbImages.value| > 0 {
      return MapToImgPath(jbImages.value);
    }
    var saved := SavedList(storeAvailable, stored);
    if saved.Some? && |saved.value| > 0 {
      return saved.value;
    }
    return Fallback;
  }

  /** buildSlideshow: compute the sources, then one slide per source with the first active. */
  method BuildSlideshow(manifest: Option<seq<string>>, loads: string -> bool, jbImages: Option<seq<string>>,
                        storeAvailable: bool, stored: Stored) returns (show: Slideshow)
    ensures fresh(show) && fresh(show.slides) && show.Valid() && show.running
    ensures show.sources == ChooseSources(Discovered(manifest, loads), jbImages, SavedList(storeAvailable, stored))
    ensures show.State() == Initial(|show.sources|)
  {
    var sources := GetSlideSources(manifest, loads, jbImages, storeAvailable, stored);
    show := new Slideshow(sources);
  }

  lemma NothingDiscovered()
    ensures Discovered(None, NeverLoads) == []
  {
    LoadedNothing([KnownFile]);
    assert Seeded(None, NeverLoads) == [];
    NothingLoadsProbe([], AllCandidates(), 0);
  }

  /** A manifest ["a.jpg", "b.png"] preempts the later tiers. */
  lemma ManifestWins(jbImages: Option<seq<string>>, saved: Option<seq<string>>)
    ensures ChooseSources(Discovered(Some(["a.jpg", "b.png"]), NeverLoads), jbImages, saved) == ["img/a.jpg", "img/b.png"]
  {
    ManifestOnlyExample();
  }

  /** No manifest, no image that loads, no developer list, a saved gallery ["x.png"]: that list. */
  lemma SavedGalleryUsed()
    ensures ChooseSources(Discovered(None, NeverLoads), None, SavedList(true, Json(["x.png"]))) == ["x.png"]
  {
    NothingDiscovered();
  }

  /** Nothing anywhere: the single fallback image. */
  lemma FallbackWhenNothing(storeAvailable: bool)
    ensures ChooseSources(Discovered(None, NeverLoads), None, SavedList(storeAvailable, Missing)) == ["img/justin4_720.jpg"]
  {
    NothingDiscovered();
  }

  /** The clear button, then the rebuild: with nothing discovered and no developer list, the slideshow
      falls back to the single known image, whether or not storage works. */
  method ClearedGalleryFallsBack(g: Gallery, jbImages: Option<seq<string>>)
    requires jbImages.None? || jbImages.value == []
    modifies g
    ensures ChooseSources(Discovered(None, NeverLoads), jbImages, SavedList(g.storeAvailable, g.stored)) == Fallback
  {
    g.Clear();
    NothingDiscovered();
  }
}

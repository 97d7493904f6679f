# Fan page script: a Dafny model of its decisions

The page script (`script.js`) themes the fan page, renders a fan card, discovers which images to
show in a slideshow, cycles that slideshow, and keeps a photo gallery in local storage. This project
models the logic under that browser glue. Each browser effect becomes an input:

- the manifest fetch is an `Option<seq<string>>`;
- image loading is an oracle `loads: string -> bool`;
- `FileReader` is a function `toDataUrl`;
- local storage is a flag (storage works or not) plus the stored values, and each `setItem` write gets a flag `writeOk` that is false when the write throws (over quota);
- `window.JB_IMAGES` is an explicit `Option<seq<string>>`, `None` when it is not an array.

Modules, one per file:

- `Html` (html.dfy): `escapeHtml` as a character map, its decoder, and the two escaped fields of the fan card.
- `Paths` (paths.dfy): `toImgPath` and the known file `img/justin4_720.jpg`.
- `Candidates` (candidates.dfy): the 240 guessed file names, built by three nested loops as the script builds them.
- `Discovery` (discovery.dfy): `discoverFromImgFolder` as a method with the batch loop. It is proved equal to a recursive specification (`Probe`), and the batch and membership properties are lemmas about that specification.
- `GalleryStore` (gallery.dfy): the uploader and the clear button, as a class over the stored `gallery` value.
- `Sources` (sources.dfy): the priority chain of `getSlideSourcesAsync` and `buildSlideshow`.
- `Slides` (slideshow.dfy): the slideshow as a class over an `array<bool>` of `active` flags, specified by functions on values (`Tick`, `Restart`).
- `Theme` (theme.dfy): the theme toggle as a class holding the root attribute and its saved copy.
- `Strings` (strings.dfy): the prefix test shared by the decoder and `toImgPath`.
- `Wrappers` (wrappers.dfy): `Option`.

Three points about the code that a reader might expect otherwise:

- The script's own comment (script.js:74) gives the priority as discovered files, then `window.JB_IMAGES`, then the uploaded gallery, then the fallback, and the chain follows it. Inside discovery, the manifest entries and the probes go into one set before the non-empty test, so the known file or any probed image that loads joins the manifest entries. A manifest `["a.jpg","b.png"]` therefore gives exactly `["img/a.jpg","img/b.png"]` only when no probe succeeds, and `Discovery.ManifestOnlyExample` states it under that condition.
- Two toggles from `dark` or `light` restore the attribute; from any other saved value they give `light` (`Theme.ToggleNormalises`). When storage works and the second write succeeds, the saved copy then holds the original theme. That is the old saved copy only when it already matched the attribute: on a first visit nothing was saved, and two clicks leave `dark` saved. `Theme.ToggleTwiceRestores` states these cases.
- A saved theme that is an empty string counts as absent, because `||` treats `""` as false.

## Model

| member | source | states |
|---|---|---|
| `Html.EscapeChar` | script.js:199 | each special character becomes its entity, starting with `&`; other characters stay as they are; no output character is `<`, `>` or `"` |
| `Html.Escape` | script.js:199 | the output is at least as long as the input and contains no `<`, `>` or `"` |
| `Html.UnescapeEscape` | script.js:199 | decoding the escaped text gives back the input: every character is kept, in order |
| `Html.EscapeInjective` | script.js:199 | two different texts never escape to the same markup |
| `Html.AmpersandsBeginEntities` | script.js:199 | every `&` in the output begins `&amp;`, `&lt;`, `&gt;` or `&quot;` |
| `Html.EscapeConcat` | script.js:199 | escaping distributes over concatenation |
| `Html.EscapeIdentity` | script.js:199 | escaping leaves a text unchanged exactly when it has no special character |
| `Html.EscapeExample` | script.js:199 | `<b>X</b>` becomes `&lt;b&gt;X&lt;/b&gt;` |
| `Html.RenderFanCard` | script.js:54-61 | no data gives the placeholder; otherwise both fields are free of markup characters, every `&` in them begins an entity, and they decode to the name and to the song, or to a dash when the song is empty |
| `Paths.ToImgPath` | script.js:92 | the result starts with `img/`, is the input if that already starts with `img/`, is otherwise `img/` plus the input, and ends with the input |
| `Paths.ToImgPathIdempotent` | script.js:92 | normalising twice is the same as normalising once |
| `Paths.MapToImgPath` | script.js:81 | the list keeps its length and every entry is normalised in place |
| `Candidates.Decimal` | script.js:113-115 | the decimal text of a number is a non-empty run of digits, two or more for numbers from 10 on, with no leading zero except for 0 itself |
| `Candidates.ValueDecimal` | script.js:113-115 | the digits of the decimal text, read most significant first, stand for the number itself |
| `Candidates.DecimalInjective` | script.js:113-115 | different numbers have different decimal texts |
| `Candidates.CandidateExample` | script.js:113-115 | base 0, number 10, extension 0 gives `img/justin10.jpg`; base 2, number 20, extension 3 gives `img/bieber20.webp` |
| `Candidates.Candidate` | script.js:115 | the template literal `img/${base}${n}.${ext}`; `CandidateInjective` states that it determines its base, number and extension, and `CandidateExample` pins two renderings |
| `Candidates.CandidateAt` | script.js:111-115 | the k-th pushed path; `IndexParts` states the layout and `CandidatesDistinct` that different positions differ |
| `Candidates.IndexParts` | script.js:111-115 | entry 80·b + 4·(n−1) + e is `img/{base b}{n}.{ext e}`: base-major, then n, then extension |
| `Candidates.BuildCandidates` | script.js:111-115 | the nested loops build exactly 240 entries, the k-th being `CandidateAt(k)` |
| `Candidates.CandidateInjective` | script.js:115 | a path determines its base, its number and its extension |
| `Candidates.CandidatesDistinct` | script.js:111-115 | any two entries at different positions differ |
| `Discovery.AllCandidatesDistinct` | script.js:111-115 | the candidate list has no duplicates |
| `Discovery.Insert` | script.js:131 | `Set.add` keeps the earlier entries in place, adds at most one, never creates a duplicate, and the members become the old ones plus the new path |
| `Discovery.InsertAll` | script.js:103 | repeated `Set.add`; the result is never shorter, and `InsertAllFacts` states prefix, membership and no duplicates |
| `Discovery.ManifestPaths` | script.js:99-105 | the manifest entries through `toImgPath`, nothing when the fetch failed; `AddManifest` is proved to add exactly these, and `DiscoveredMembers` states that all of them are discovered |
| `Discovery.Seeded` | script.js:96-108 | the set before the guessed names are probed: the manifest entries, then the known file if it loads; `DiscoveryBatches` counts it in every batch's size test |
| `Discovery.AllCandidates` | script.js:111-115 | the 240 guessed names in push order; its length is 240, `BuildCandidates` builds it by the loops, and `AllCandidatesDistinct` states that it has no duplicates |
| `Discovery.InsertAllFacts` | script.js:103 | adding a list keeps the earlier entries in place, adds exactly the list's members, and never creates a duplicate |
| `Discovery.LoadedMembers` | script.js:128-136 | a path joins the set exactly when it was probed and loads |
| `Discovery.Loaded` | script.js:128-136 | `tryAdd` over a batch keeps at most the probed paths; `LoadedMembers` states that it keeps exactly those that load |
| `Discovery.AfterBatch` | script.js:120-121 | the set after one batch `slice(i, i + 25)` is probed; `NextBatch` ties it to the closed form `SetAfter`, and `ProbeBatch` is proved to compute it |
| `Discovery.ProbeStops` | script.js:117-123 | from a batch on, the loop probes consecutive 25-slices; every batch before the last leaves fewer than 6 sources; the last leaves 6 or more or ends the list; the result is the set at that point |
| `Discovery.Probe` | script.js:117-125 | the batch loop from a given index; `ProbeStops` and `DiscoveryBatches` state how it slices, when it stops and what it returns |
| `Discovery.Discovered` | script.js:95-126 | what `discoverFromImgFolder` returns; `DiscoveredMembers` states its members and no duplicates, and `Discovery.Discover` is proved equal to it |
| `Discovery.Batches` | script.js:119-123 | the number of loop iterations from a given index, stopping after the batch that reaches 6 sources; `ProbeStops` states which batch that is |
| `Discovery.BatchCount` | script.js:119-123 | the loop's iteration count from index 0; `DiscoveryBatches` states that it is between 1 and 10 and that fewer than 10 means at least 6 sources |
| `Discovery.Probed` | script.js:108-121 | the known file, then the candidates of the first `BatchCount` batches; `DiscoveredMembers` uses it as the set of probed paths |
| `Discovery.DiscoveryBatches` | script.js:117-123 | between 1 and 10 batches run; all batches before the last leave fewer than 6 entries, counting manifest entries and the known file; with fewer than 10 batches, the result has at least 6 |
| `Discovery.DiscoveredMembers` | script.js:95-136 | the result has no duplicates, and a path is in it exactly when it is a normalised manifest entry, or it is the known file or a probed candidate and it loads |
| `Discovery.ManifestOnlyExample` | script.js:99-105 | a manifest `["a.jpg","b.png"]` with nothing loading gives exactly `["img/a.jpg","img/b.png"]` |
| `Discovery.AddManifest` | script.js:99-105 | the `forEach` adds every manifest entry through `toImgPath`, in order, without duplicates |
| `Discovery.ProbeBatch` | script.js:120-121 | probing a batch adds exactly the batch's paths that load |
| `Discovery.Discover` | script.js:95-126 | the loop returns the specified result; that result has no duplicates and holds exactly the normalised manifest entries plus the probed paths that load |
| `GalleryStore.Parse` | script.js:181 | a missing key reads as the empty list; stored JSON reads as its list; malformed JSON fails |
| `GalleryStore.Converted` | script.js:180-184 | at most 12 files are read (all of them when there are fewer) and entry k is file k converted |
| `GalleryStore.FifteenFilesKeepTwelve` | script.js:180 | of 15 selected files, only the first 12 are read and saved |
| `GalleryStore.Gallery.Upload` | script.js:179-189 | when the write succeeds, the saved list becomes the old list followed by the converted first 12 files, in selection order; without storage the list starts empty and nothing is saved; if the stored JSON is malformed or the write throws (over quota), the handler fails and the stored value is unchanged |
| `GalleryStore.Gallery.Clear` | script.js:191 | clearing removes the stored list when storage works |
| `Sources.SavedList` | script.js:84-86 | the third tier sees a list exactly when storage works and its JSON parses, and that list is the stored one |
| `Sources.ChooseSources` | script.js:75-90 | the chosen list is never empty |
| `Sources.ChooseIsFirstNonEmpty` | script.js:75-90 | the choice is the first non-empty tier of discovered, normalised developer list, saved gallery, fallback, and no tiers are merged |
| `Sources.ChooseTiers` | script.js:75-90 | each case of the chain returns its own tier: discovery, the normalised developer list, the saved list verbatim, or exactly `['img/justin4_720.jpg']` |
| `Sources.GetSlideSources` | script.js:75-90 | the method returns the chain applied to the discovered list and is never empty |
| `Sources.BuildSlideshow` | script.js:139-149 | one slide per chosen source, with only slide 0 active and the timer running |
| `Sources.ManifestWins` | script.js:75-78 | a discovered manifest preempts the developer list and the saved gallery |
| `Sources.SavedGalleryUsed` | script.js:84-86 | with no manifest, no image loading and no developer list, a saved `["x.png"]` is returned verbatim |
| `Sources.FallbackWhenNothing` | script.js:88-89 | with nothing available anywhere, the result is `["img/justin4_720.jpg"]` |
| `Sources.NothingDiscovered` | script.js:95-126 | with no manifest and no image loading, discovery is empty |
| `Sources.ClearedGalleryFallsBack` | script.js:191 | after the clear button, with nothing discovered and no developer list, the rebuilt slideshow gets the fallback image, with or without storage |
| `Slides.Initial` | script.js:143-144 | after build only slide 0 is active, at index 0 |
| `Slides.NextIndex` | script.js:159 | `(idx+1) % n` is the next index, wrapping to 0 after the last |
| `Slides.Tick` | script.js:157-161 | a tick keeps the slide count, moves the index circularly and preserves "exactly the indexed slide is active" |
| `Slides.Ticks` | script.js:157-161 | any number of ticks keeps the slide count and an index inside it |
| `Slides.TicksAdvance` | script.js:157-161 | after k ≤ n ticks, the slide k places on, wrapping past the last, is the only active one |
| `Slides.FullCycle` | script.js:157-161 | after n ticks the slideshow is back at its start |
| `Slides.RestartResets` | script.js:151-156 | a corrected restart leaves only slide 0 active, at index 0 |
| `Slides.Restart` | script.js:151-156 | corrected restart (see ## Findings): the current slide loses `active` and slide 0 gains it; `RestartResets` states that the result is the initial state |
| `Slides.RestartAsWritten` | script.js:151-156 | the restart as written: `idx` becomes 0 and the flags stay; `RestartAsWrittenLeavesTwoActive` states the input on which this leaves two slides active |
| `Slides.RestartAsWrittenLeavesTwoActive` | script.js:151-165 | the restart as written, after two ticks over three slides, leaves two slides active after the next tick |
| `Slides.Slideshow.constructor` | script.js:139-156 | after build, only slide 0 is active; the timer runs exactly when there is a slide |
| `Slides.Slideshow.Step` | script.js:157-161 | the timer callback performs one `Tick` while the timer runs; it keeps exactly one slide active only in the corrected program, because `Valid()` includes that invariant and the restart as written breaks it (see ## Findings) |
| `Slides.Slideshow.Pause` | script.js:163-165 | hover or a hidden tab clears the timer and leaves the slides alone |
| `Slides.Slideshow.Start` | script.js:151-165 | corrected restart (see ## Findings): a resume with slides restarts the timer from slide 0 and also leaves only slide 0 active, which the code as written does not do; with no slides it does nothing |
| `Theme.InitialTheme` | script.js:21 | the theme is never empty; it is `dark` unless a non-empty value was saved, and then it is that value |
| `Theme.Next` | script.js:26 | a toggle yields `dark` or `light`, and `light` exactly after `dark` |
| `Theme.ToggleTwice` | script.js:26 | two toggles from `dark` or `light` give back the original |
| `Theme.ToggleNormalises` | script.js:26 | from any other value, one toggle gives `dark`, and from then on the two themes alternate |
| `Theme.ThemeToggle.constructor` | script.js:21-22 | the root attribute starts as the saved theme or `dark` |
| `Theme.ThemeToggle.Toggle` | script.js:25-30 | a click sets the attribute to its toggle; it saves it when storage works and the write succeeds, and otherwise the saved copy stays as it was |
| `Theme.ToggleTwiceRestores` | script.js:25-30 | two clicks from either theme restore the attribute; when storage works and the second write succeeds, the saved copy is the original theme (on a first visit too), equal to the old copy exactly when that matched; when only the first write succeeds, the opposite theme stays saved; with no store or no successful write the saved copy is unchanged |

## Findings

| source | as written | input that shows it | evidently intended | confidence | as-written member | corrected member |
|---|---|---|---|---|---|---|
| script.js:151-165 | `startSlideshow` sets `idx = 0` but leaves the `active` classes as they were. It runs on every mouse-leave and every time the tab becomes visible. | Three slides. Two ticks leave slide 2 active. A hover and un-hover reset `idx` to 0. The next tick removes `active` from slide 0, which does not have it, and adds it to slide 1, so slides 1 and 2 are both active. | Exactly one slide is active, and a restart begins again from slide 0. The restart should also remove `active` from the current slide and give it to slide 0. | medium (not executed) | `Slides.RestartAsWrittenLeavesTwoActive` | `Slides.Slideshow.Start` |

## Left out

- DOM work is not modelled: `innerHTML`, `createElement`, `classList`, `prepend`/`addImage` and the gallery grid, the theme icon text (script.js:24, 29), and `scrollIntoView`. Each is browser glue with no decision in it.
- The video embed (script.js:34-51) is left out. It only builds an iframe.
- The fan-card form is left out: `trim()` of the inputs, saving `fan_card` and reading it back with `JSON.parse` (script.js:63-71). Only the escaped rendering is modelled.
- The storage probe `safeLocalStorage` (script.js:15-17) is not run. Its outcome is the `storeAvailable` input.
- `JSON.parse`/`stringify` are not modelled. Stored values are `Option`s or the `Stored` datatype. JSON that is valid but not a list of strings is out of scope.
- The manifest `fetch` and `res.ok` (script.js:100-102) become the `manifest` input. A manifest that is not an array is out of scope.
- Image loading, the `Image` object and `FileReader` (script.js:128-136, 198) become the `loads` oracle and the `toDataUrl` function.
- The cache-busting query `?v=` from `Date.now() % 1e6` (script.js:134) is left out because it depends on time. The set always stores the plain path.
- `Discovery.Discover`: inside one batch the model adds successful probes in candidate order. The page adds them in the order the loads finish, which is unspecified. The exact sequence that `Discover` promises is therefore one of the possible orders. Its membership, no-duplicates and batch properties hold for any order.
- Interval timing is not modelled: `setInterval`/`clearInterval` timing, the 1000 ms period, and the `visibilitychange` listener that each `startSlideshow` adds again (script.js:163-165). The model keeps only whether the timer runs.
- The refresh calls are not modelled: the uploader and the clear button trigger a rebuild of the slideshow (script.js:188, 191) but the model does not make that call. `Sources.BuildSlideshow` is that rebuild.
- `GalleryStore.Gallery.Upload`, `GalleryStore.Gallery.Clear`: each handler is one atomic step. In the page the uploader reads the saved list, awaits every file read and only then writes, so a clear click or a second selection during those awaits is overwritten; the model does not capture that interleaving. Every file read is assumed to complete: `fileToDataURL` has no error handler, so a failed read would leave the handler waiting forever and nothing saved.
- `Slides.Slideshow`: its `Valid()` includes "exactly one slide is active". That invariant holds for the corrected restart `Start`, not for the restart as written (see ## Findings).
- The re-rendering of the saved gallery on load (script.js:192) is DOM work and is left out.

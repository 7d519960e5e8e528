/** Saving the project list to browser storage without its room images, and
    loading it back with the decoded-image caches rebuilt from data URLs
    (App.tsx:60-144). Storage itself is a value: what `localStorage` holds
    under the key, and whether the JSON text in it can be read back. */
module Persistence {
  import opened Wrappers
  import opened Types
  import opened DataUrl

  /** What `localStorage.getItem` gives back: nothing (or the empty string),
      text `JSON.parse` rejects, or the saved project list. */
  datatype Stored = Absent | Unreadable | Saved(projects: seq<Project>)

  // What survives a save: text, palettes, furniture and prompts, but no room image.

  predicate IterationBare(it: Iteration) {
    it.imageUrl == "" && it.imageBase64.None?
  }

  predicate VariationBare(v: StyleVariation) {
    && v.imageUrl == ""
    && v.imageBase64.None?
    && forall i :: 0 <= i < |v.iterations| ==> IterationBare(v.iterations[i])
  }

  predicate ProjectBare(p: Project) {
    && p.originalImage == ""
    && p.originalImageBase64.None?
    && forall i :: 0 <= i < |p.styleVariations| ==> VariationBare(p.styleVariations[i])
  }

  predicate AllBare(ps: seq<Project>) {
    forall i :: 0 <= i < |ps| ==> ProjectBare(ps[i])
  }

  /** Two variations that agree on everything but their images. */
  predicate SameVariationText(a: StyleVariation, b: StyleVariation) {
    && a.styleName == b.styleName
    && a.description == b.description
    && a.colorPalette == b.colorPalette
    && a.furnitureRecommendations == b.furnitureRecommendations
    && |a.iterations| == |b.iterations|
    && forall i :: 0 <= i < |a.iterations| ==> a.iterations[i].prompt == b.iterations[i].prompt
  }

  /** Two projects that agree on everything but their images. */
  predicate SameProjectText(a: Project, b: Project) {
    && a.id == b.id
    && a.name == b.name
    && a.analysis == b.analysis
    && a.createdAt == b.createdAt
    && |a.styleVariations| == |b.styleVariations|
    && forall i :: 0 <= i < |a.styleVariations| ==> SameVariationText(a.styleVariations[i], b.styleVariations[i])
  }

  predicate SameText(a: seq<Project>, b: seq<Project>) {
    |a| == |b| && forall i :: 0 <= i < |a| ==> SameProjectText(a[i], b[i])
  }

  function StripIteration(it: Iteration): (r: Iteration)
    ensures IterationBare(r) && r.prompt == it.prompt
  {
    it.(imageUrl := "", imageBase64 := None)
  }

  function StripVariation(v: StyleVariation): (r: StyleVariation)
    ensures VariationBare(r) && SameVariationText(r, v)
  {
    v.(imageUrl := "", imageBase64 := None,
       iterations := seq(|v.iterations|, i requires 0 <= i < |v.iterations| => StripIteration(v.iterations[i])))
  }

  function StripProject(p: Project): (r: Project)
    ensures ProjectBare(r) && SameProjectText(r, p)
  {
    p.(originalImage := "", originalImageBase64 := None,
       styleVariations := seq(|p.styleVariations|, i requires 0 <= i < |p.styleVariations| => StripVariation(p.styleVariations[i])))
  }

  /** The savable copy `saveProjects` serialises (App.tsx:111-137): every room
      image and cache cleared, everything else kept. */
  function StripAll(ps: seq<Project>): (r: seq<Project>)
    ensures AllBare(r) && SameText(r, ps)
  {
    seq(|ps|, i requires 0 <= i < |ps| => StripProject(ps[i]))
  }

  /** A bare variation is determined by its text. */
  lemma BareVariationUnique(a: StyleVariation, b: StyleVariation)
    requires VariationBare(a) && VariationBare(b) && SameVariationText(a, b)
    ensures a == b
  {
    assert a.iterations == b.iterations;
  }

  lemma BareProjectUnique(a: Project, b: Project)
    requires ProjectBare(a) && ProjectBare(b) && SameProjectText(a, b)
    ensures a == b
  {
    forall i | 0 <= i < |a.styleVariations|
      ensures a.styleVariations[i] == b.styleVariations[i]
    {
      BareVariationUnique(a.styleVariations[i], b.styleVariations[i]);
    }
    assert a.styleVariations == b.styleVariations;
  }

  /** Two bare lists with the same text are equal: the saved copy is the only
      image-free list that keeps the text. */
  lemma BareUnique(a: seq<Project>, b: seq<Project>)
    requires AllBare(a) && AllBare(b) && SameText(a, b)
    ensures a == b
  {
    forall i | 0 <= i < |a|
      ensures a[i] == b[i]
    {
      BareProjectUnique(a[i], b[i]);
    }
  }

  /** Saving twice stores the same text as saving once. */
  lemma StripIdempotent(ps: seq<Project>)
    ensures StripAll(StripAll(ps)) == StripAll(ps)
  {
    var once := StripAll(ps);
    var twice := StripAll(once);
    assert SameText(twice, once) by {
      forall i | 0 <= i < |twice|
        ensures SameProjectText(twice[i], once[i])
      {
      }
    }
    BareUnique(twice, once);
  }

  // Loading: a missing cache is rebuilt from a URL that decodes.

  /** A URL that the hydration step decodes: `isValidDataUrl` accepts it and
      `dataUrlToImageBase64` returns an image. */
  predicate Decodable(url: string) {
    IsValid(url) && Parse(url).Some?
  }

  /** `after` is `before` hydrated against `url` (App.tsx:69-70, 79-80, 89-90):
      an existing cache is kept, a missing one is filled by decoding the URL,
      and it stays missing only when the URL does not decode. */
  predicate CacheHydrated(url: string, before: Option<ImageBase64>, after: Option<ImageBase64>) {
    && (before.Some? ==> after == before)
    && (before.None? && after.Some? ==> Decodable(url) && after == Parse(url))
    && (after.None? ==> !Decodable(url))
  }

  predicate IterationHydrated(before: Iteration, after: Iteration) {
    && after.prompt == before.prompt
    && after.imageUrl == before.imageUrl
    && CacheHydrated(before.imageUrl, before.imageBase64, after.imageBase64)
  }

  predicate VariationHydrated(before: StyleVariation, after: StyleVariation) {
    && SameVariationText(before, after)
    && after.imageUrl == before.imageUrl
    && CacheHydrated(before.imageUrl, before.imageBase64, after.imageBase64)
    && forall i :: 0 <= i < |before.iterations| ==> IterationHydrated(before.iterations[i], after.iterations[i])
  }

  predicate ProjectHydrated(before: Project, after: Project) {
    && SameProjectText(before, after)
    && after.originalImage == before.originalImage
    && CacheHydrated(before.originalImage, before.originalImageBase64, after.originalImageBase64)
    && forall i :: 0 <= i < |before.styleVariations| ==>
         VariationHydrated(before.styleVariations[i], after.styleVariations[i])
  }

  predicate AllHydrated(before: seq<Project>, after: seq<Project>) {
    |after| == |before| && forall i :: 0 <= i < |before| ==> ProjectHydrated(before[i], after[i])
  }

  /** `if (!cache && isValidDataUrl(url)) cache = dataUrlToImageBase64(url)`. */
  function HydrateCache(url: string, cache: Option<ImageBase64>): (r: Option<ImageBase64>)
    ensures CacheHydrated(url, cache, r)
  {
    if cache.None? && IsValid(url) then Parse(url) else cache
  }

  function HydrateIteration(it: Iteration): (r: Iteration)
    ensures IterationHydrated(it, r)
  {
    it.(imageBase64 := HydrateCache(it.imageUrl, it.imageBase64))
  }

  function HydrateVariation(v: StyleVariation): (r: StyleVariation)
    ensures VariationHydrated(v, r)
  {
    v.(imageBase64 := HydrateCache(v.imageUrl, v.imageBase64),
       iterations := seq(|v.iterations|, i requires 0 <= i < |v.iterations| => HydrateIteration(v.iterations[i])))
  }

  function HydrateProject(p: Project): (r: Project)
    ensures ProjectHydrated(p, r)
  {
    p.(originalImageBase64 := HydrateCache(p.originalImage, p.originalImageBase64),
       styleVariations := seq(|p.styleVariations|, i requires 0 <= i < |p.styleVariations| => HydrateVariation(p.styleVariations[i])))
  }

  /** The hydration map of the load effect (App.tsx:67-99). */
  function HydrateAll(ps: seq<Project>): (r: seq<Project>)
    ensures AllHydrated(ps, r)
  {
    seq(|ps|, i requires 0 <= i < |ps| => HydrateProject(ps[i]))
  }

  /** The projects the mount effect puts in state (App.tsx:60-106): the
      hydrated saved list, or nothing when storage is empty or unreadable. */
  function Load(stored: Stored): (r: seq<Project>)
    ensures stored.Saved? ==> AllHydrated(stored.projects, r)
    ensures !stored.Saved? ==> r == []
  {
    match stored
    case Saved(ps) => HydrateAll(ps)
    case _ => []
  }

  /** Hydrating again changes nothing: every cache still missing belongs to a
      URL that does not decode. */
  lemma HydrateIdempotent(ps: seq<Project>)
    ensures HydrateAll(HydrateAll(ps)) == HydrateAll(ps)
  {
    var once := HydrateAll(ps);
    forall i | 0 <= i < |once|
      ensures HydrateProject(once[i]) == once[i]
    {
      HydrateProjectIdempotent(ps[i]);
    }
  }

  lemma HydrateProjectIdempotent(p: Project)
    ensures HydrateProject(HydrateProject(p)) == HydrateProject(p)
  {
    var once := HydrateProject(p);
    forall i | 0 <= i < |once.styleVariations|
      ensures HydrateVariation(once.styleVariations[i]) == once.styleVariations[i]
    {
      HydrateVariationIdempotent(p.styleVariations[i]);
    }
    assert HydrateProject(once).styleVariations == once.styleVariations;
  }

  lemma HydrateVariationIdempotent(v: StyleVariation)
    ensures HydrateVariation(HydrateVariation(v)) == HydrateVariation(v)
  {
    var once := HydrateVariation(v);
    assert HydrateVariation(once).iterations == once.iterations;
  }

  /** Hydration touches nothing a save keeps: saving a loaded list stores what
      saving the raw list would. */
  lemma StripAfterHydrate(ps: seq<Project>)
    ensures StripAll(HydrateAll(ps)) == StripAll(ps)
  {
    var a := StripAll(HydrateAll(ps));
    var b := StripAll(ps);
    assert SameText(a, b) by {
      forall i | 0 <= i < |a|
        ensures SameProjectText(a[i], b[i])
      {
        assert SameProjectText(HydrateAll(ps)[i], ps[i]);
      }
    }
    BareUnique(a, b);
  }

  /** A hydrated bare list is the bare list itself: the cleared URLs do not
      decode, so the caches stay empty. */
  lemma HydrateBare(ps: seq<Project>)
    requires AllBare(ps)
    ensures HydrateAll(ps) == ps
  {
    var r := HydrateAll(ps);
    assert !IsValid("");
    assert SameText(r, ps) by {
      forall i | 0 <= i < |r|
        ensures SameProjectText(r[i], ps[i])
      {
      }
    }
    BareUnique(r, ps);
  }

  /** Save then load (App.tsx:139, 62-101): the reloaded list is the saved copy,
      with every project, style, palette, furniture item and prompt, and no
      room image. */
  lemma LoadAfterSave(ps: seq<Project>)
    ensures Load(Saved(StripAll(ps))) == StripAll(ps)
    ensures SameText(Load(Saved(StripAll(ps))), ps)
  {
    HydrateBare(StripAll(ps));
  }
}

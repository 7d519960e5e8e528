/** The project-collection controller of App.tsx (App.tsx:51-293): the state
    the component keeps (projects, the project on screen, the active view, the
    loading flag), what `localStorage` holds, and the handlers that change
    them. Each handler is modelled from its start to its `finally`; what the
    browser and the service deliver on the way (the file read, the pipeline
    results, whether the storage write succeeds, the id and timestamp) are
    parameters. */
module App {
  import opened Wrappers
  import opened Strings
  import opened Seqs
  import opened Types
  import opened DataUrl
  import opened Persistence

  /** The prefix of the names given to new projects (App.tsx:162). */
  const ProjectNamePrefix := "Proyecto "

  /** The alerts the handlers raise, by cause. */
  datatype Alert =
    | StorageFull       // the storage write failed (App.tsx:140-143)
    | GenerationFailed  // analysis or design generation threw (App.tsx:184-186)
    | ReadFailed        // the file could not be read (App.tsx:192-196)
    | NoBaseImage       // no usable image to refine from (App.tsx:227-231)
    | RefineFailed      // the refinement threw (App.tsx:259-261)

  // ---- upload ----

  /** `fullDataUrl.split(',')[1]`: the text between the first and the second
      comma, or after the first comma when there is only one. */
  function FileData(url: string): (data: string)
    ensures ',' !in data
  {
    var parts := Split(url, ',');
    if |parts| >= 2 then
      parts[1]
    else
      ""
  }

  /** For a URL with one comma, the file data is everything after it. */
  lemma FileDataAfterComma(url: string) returns (k: nat)
    requires Count(url, ',') == 1
    ensures k < |url| && url[k] == ',' && ',' !in url[..k]
    ensures FileData(url) == url[k + 1..]
  {
    k := SplitOnce(url, ',');
  }

  /** The project `handleImageUpload` builds (App.tsx:160-178) once both
      service calls have answered. */
  function NewProject(id: string, count: nat, url: string, mimeType: string, analysis: string,
                      variations: seq<StyleVariation>, createdAt: string): (p: Project)
    ensures p.id == id && p.analysis == analysis && p.createdAt == createdAt
    ensures p.name == ProjectNamePrefix + NatToString(count + 1)
    ensures p.originalImage == url
    ensures p.originalImageBase64 == Some(ImageBase64(FileData(url), mimeType))
    ensures |p.styleVariations| == |variations|
    ensures forall i :: 0 <= i < |variations| ==>
      p.styleVariations[i].iterations == [] && p.styleVariations[i] == variations[i].(iterations := [])
  {
    Project(
      id, ProjectNamePrefix + NatToString(count + 1), url, Some(ImageBase64(FileData(url), mimeType)),
      analysis,
      seq(|variations|, i requires 0 <= i < |variations| => variations[i].(iterations := [])),
      createdAt)
  }

  /** For a file read as `data:<mime>;base64,<data>` whose parts hold no comma,
      the image the new project keeps for the session is the one the load effect
      would decode from the URL it keeps. */
  lemma NewProjectCacheMatchesUrl(id: string, count: nat, img: ImageBase64, analysis: string,
                                  variations: seq<StyleVariation>, createdAt: string)
    requires ',' !in img.mimeType && ',' !in img.data && !Contains(img.mimeType, Base64Marker)
    ensures var p := NewProject(id, count, Format(img), img.mimeType, analysis, variations, createdAt);
      && IsValid(p.originalImage)
      && p.originalImageBase64 == Parse(p.originalImage) == Some(img)
  {
    FormatIsValid(img);
    RoundTrip(img);
    FormatSplits(img);
  }

  // ---- refine ----

  /** The URL the variation shows as its latest image: the last iteration's, or
      the baseline's when there is none. */
  function LatestUrl(v: StyleVariation): (url: string)
    ensures |v.iterations| > 0 ==> url == v.iterations[|v.iterations| - 1].imageUrl
    ensures |v.iterations| == 0 ==> url == v.imageUrl
  {
    if |v.iterations| > 0 then v.iterations[|v.iterations| - 1].imageUrl else v.imageUrl
  }

  /** The image a refinement starts from (App.tsx:209-225): the last
      iteration's cache, else the baseline cache, else the decoding of the
      latest URL. */
  function BaseImage(v: StyleVariation): Option<ImageBase64> {
    var n := |v.iterations|;
    if n > 0 && v.iterations[n - 1].imageBase64.Some? then v.iterations[n - 1].imageBase64
    else if v.imageBase64.Some? then v.imageBase64
    else Parse(LatestUrl(v))
  }

  /** The guard at App.tsx:227: an image with non-empty data and media type. */
  predicate Usable(img: Option<ImageBase64>) {
    img.Some? && img.value.data != "" && img.value.mimeType != ""
  }

  /** Where the base image comes from: a cache of the variation when one of the
      two is present (the newer one first), and otherwise the decoding of the
      image the variation shows. */
  lemma BaseImageSource(v: StyleVariation)
    ensures var n := |v.iterations|;
      var last := if n > 0 then v.iterations[n - 1].imageBase64 else None;
      && (last.Some? ==> BaseImage(v) == last)
      && (last.None? && v.imageBase64.Some? ==> BaseImage(v) == v.imageBase64)
      && (last.None? && v.imageBase64.None? ==> BaseImage(v) == Parse(LatestUrl(v)))
      && (BaseImage(v).Some? ==> last.Some? || v.imageBase64.Some? || Parse(LatestUrl(v)).Some?)
  {
  }

  /** A hydrated variation whose latest URL is a decodable data URL always has
      a base image. */
  lemma HydratedHasBaseImage(before: StyleVariation, after: StyleVariation)
    requires VariationHydrated(before, after)
    requires Decodable(LatestUrl(before))
    ensures BaseImage(after).Some?
  {
    var n := |before.iterations|;
    if n > 0 {
      assert IterationHydrated(before.iterations[n - 1], after.iterations[n - 1]);
    }
  }

  /** A variation as saved has no base image: the images of archived projects
      cannot be refined until the room is uploaded again (App.tsx:216-219). */
  lemma StrippedHasNoBaseImage(v: StyleVariation)
    ensures BaseImage(StripVariation(v)) == None
  {
    var s := StripVariation(v);
    var n := |s.iterations|;
    if n > 0 {
      assert IterationBare(s.iterations[n - 1]);
    }
    assert LatestUrl(s) == "";
  }

  /** After a reload nothing can be refined: every variation of every loaded
      project lacks a base image. */
  lemma ReloadedHasNoBaseImage(ps: seq<Project>, i: nat, j: nat)
    requires i < |ps| && j < |ps[i].styleVariations|
    ensures var loaded := Load(Saved(StripAll(ps)));
      i < |loaded| && j < |loaded[i].styleVariations| && BaseImage(loaded[i].styleVariations[j]) == None
  {
    LoadAfterSave(ps);
    StrippedHasNoBaseImage(ps[i].styleVariations[j]);
  }

  /** The iteration a refinement adds (App.tsx:237-241). */
  function NewIteration(prompt: string, img: ImageBase64): (it: Iteration)
    ensures it.prompt == prompt && it.imageBase64 == Some(img)
    ensures StartsWith(it.imageUrl, Scheme)
  {
    Iteration(prompt, Format(img), Some(img))
  }

  /** The new iteration's URL decodes to its cache whenever the refined image's
      parts hold no comma and its media type no `;base64`. */
  lemma NewIterationDecodes(prompt: string, img: ImageBase64)
    requires ',' !in img.mimeType && ',' !in img.data && !Contains(img.mimeType, Base64Marker)
    ensures var it := NewIteration(prompt, img);
      IsValid(it.imageUrl) && Parse(it.imageUrl) == it.imageBase64
  {
    FormatIsValid(img);
    RoundTrip(img);
  }

  /** The copy of `project` with `it` appended to every variation named
      `styleName` (App.tsx:243-254). */
  function WithIteration(project: Project, styleName: string, it: Iteration): (r: Project)
    ensures |r.styleVariations| == |project.styleVariations|
  {
    project.(styleVariations := seq(|project.styleVariations|, i requires 0 <= i < |project.styleVariations| =>
      var v := project.styleVariations[i];
      if v.styleName == styleName then v.(iterations := v.iterations + [it]) else v))
  }

  /** The refined project differs from the original only in the iterations of
      the refined style: each variation of that style gains exactly one
      iteration, appended last, and every other variation is untouched. */
  lemma WithIterationAppendsOne(project: Project, styleName: string, it: Iteration)
    ensures var r := WithIteration(project, styleName, it);
      && SameProjectFields(r, project)
      && forall i :: 0 <= i < |project.styleVariations| ==>
           var (before, after) := (project.styleVariations[i], r.styleVariations[i]);
           if before.styleName == styleName then
             && after == before.(iterations := after.iterations)
             && |after.iterations| == |before.iterations| + 1
             && after.iterations[..|before.iterations|] == before.iterations
             && after.iterations[|before.iterations|] == it
           else after == before
  {
    var r := WithIteration(project, styleName, it);
    forall i | 0 <= i < |project.styleVariations| && project.styleVariations[i].styleName == styleName
      ensures r.styleVariations[i].iterations[..|project.styleVariations[i].iterations|]
           == project.styleVariations[i].iterations
    {
      var before := project.styleVariations[i].iterations;
      assert r.styleVariations[i].iterations == before + [it];
      assert (before + [it])[..|before|] == before;
    }
  }

  /** Two projects that agree on every field but their variations. */
  predicate SameProjectFields(a: Project, b: Project) {
    a == b.(styleVariations := a.styleVariations)
  }

  /** `projects.map(p => p.id === updated.id ? updated : p)` (App.tsx:257). */
  function ReplaceById(ps: seq<Project>, updated: Project): (r: seq<Project>)
    ensures |r| == |ps|
  {
    seq(|ps|, i requires 0 <= i < |ps| => if ps[i].id == updated.id then updated else ps[i])
  }

  /** Replacing keeps every position: the projects with the updated id become
      the updated project, and the others stay where and as they were. */
  lemma ReplaceByIdPositions(ps: seq<Project>, updated: Project)
    ensures var r := ReplaceById(ps, updated);
      && (forall i :: 0 <= i < |ps| && ps[i].id == updated.id ==> r[i] == updated)
      && (forall i :: 0 <= i < |ps| && ps[i].id != updated.id ==> r[i] == ps[i])
      && (updated.id !in IdsOf(ps) ==> r == ps)
  {
  }

  function IdsOf(ps: seq<Project>): set<string> {
    set i | 0 <= i < |ps| :: ps[i].id
  }

  /** `project.styleVariations.find(v => v.style_name === styleName)` (App.tsx:203). */
  function FindStyle(project: Project, styleName: string): (r: Option<StyleVariation>)
    ensures r.Some? <==> exists i :: 0 <= i < |project.styleVariations| && project.styleVariations[i].styleName == styleName
    ensures r.Some? ==> r.value in project.styleVariations && r.value.styleName == styleName
    ensures r.Some? ==>
      exists i :: && 0 <= i < |project.styleVariations| && project.styleVariations[i] == r.value
                  && forall j :: 0 <= j < i ==> project.styleVariations[j].styleName != styleName
  {
    Find(project.styleVariations, (v: StyleVariation) => v.styleName == styleName)
  }

  /** How `handleRefineRequest` ends, given the project it was asked to refine
      and what `refineDesign` returned (None: it threw). */
  datatype RefineDecision =
    | UnknownStyle
    | NoBase
    | ServiceFailed
    | Refined(updated: Project)

  function DecideRefine(project: Project, styleName: string, prompt: string,
                        refined: Option<ImageBase64>): (d: RefineDecision)
    ensures d.UnknownStyle? <==> FindStyle(project, styleName).None?
    ensures d.NoBase? <==> FindStyle(project, styleName).Some? && !Usable(BaseImage(FindStyle(project, styleName).value))
    ensures d.Refined? <==> FindStyle(project, styleName).Some? && Usable(BaseImage(FindStyle(project, styleName).value)) && refined.Some?
  {
    match FindStyle(project, styleName)
    case None => UnknownStyle
    case Some(style) =>
      if !Usable(BaseImage(style)) then NoBase
      else
        match refined
        case None => ServiceFailed
        case Some(img) => Refined(WithIteration(project, styleName, NewIteration(prompt, img)))
  }

  /** A refinement that goes through carries the prompt and the refined image
      into the one new iteration of the refined style; the project keeps its
      id, so it replaces itself in the collection. */
  lemma RefinedCarriesPrompt(project: Project, styleName: string, prompt: string, img: ImageBase64)
    requires DecideRefine(project, styleName, prompt, Some(img)).Refined?
    ensures var u := DecideRefine(project, styleName, prompt, Some(img)).updated;
      && u.id == project.id
      && exists i :: 0 <= i < |u.styleVariations| && u.styleVariations[i].styleName == styleName
           && |u.styleVariations[i].iterations| > 0
           && u.styleVariations[i].iterations[|u.styleVariations[i].iterations| - 1] == NewIteration(prompt, img)
  {
    var it := NewIteration(prompt, img);
    var u := WithIteration(project, styleName, it);
    WithIterationAppendsOne(project, styleName, it);
    var i :| 0 <= i < |project.styleVariations| && project.styleVariations[i].styleName == styleName;
    assert u.styleVariations[i].iterations == project.styleVariations[i].iterations + [it];
  }

  // ---- delete ----

  predicate KeepsOtherId(id: string, p: Project) {
    p.id != id
  }

  /** `projects.filter(p => p.id !== projectId)` (App.tsx:269). */
  function WithoutId(ps: seq<Project>, id: string): (r: seq<Project>)
    ensures |r| <= |ps|
    ensures forall i :: 0 <= i < |r| ==> r[i].id != id
    ensures forall p :: multiset(r)[p] == if p.id != id then multiset(ps)[p] else 0
  {
    Filter(ps, (p: Project) => KeepsOtherId(id, p))
  }

  /** Deleting keeps the other projects in their order: deleting from a
      concatenation deletes from each part. */
  lemma WithoutIdAppend(a: seq<Project>, b: seq<Project>, id: string)
    ensures WithoutId(a + b, id) == WithoutId(a, id) + WithoutId(b, id)
  {
    FilterAppend(a, b, (p: Project) => KeepsOtherId(id, p));
  }

  /** Deleting an id no project has changes nothing. */
  lemma WithoutAbsentId(ps: seq<Project>, id: string)
    requires id !in IdsOf(ps)
    ensures WithoutId(ps, id) == ps
  {
    forall i | 0 <= i < |ps|
      ensures KeepsOtherId(id, ps[i])
    {
      assert ps[i].id in IdsOf(ps);
    }
    FilterAllKept(ps, (p: Project) => KeepsOtherId(id, p));
  }

  /** The view after `deleteProject` (App.tsx:271-277): back to the upload page
      when the project on screen was deleted, or when the archive became empty.
      Both tests read the state from before the call. */
  function ViewAfterDelete(view: AppView, current: Option<Project>, id: string, remaining: nat): (r: AppView)
    ensures (current.Some? && current.value.id == id) || (view == ArchiveView && remaining == 0) ==> r == UploadView
    ensures !((current.Some? && current.value.id == id) || (view == ArchiveView && remaining == 0)) ==> r == view
  {
    if current.Some? && current.value.id == id then UploadView
    else if view == ArchiveView && remaining == 0 then UploadView
    else view
  }

  // ---- the component ----

  class AppController {
    var projects: seq<Project>
    var currentProject: Option<Project>
    var activeView: AppView
    var isLoading: bool
    /** What `localStorage` holds under the key. */
    var stored: Stored
    /** The alerts raised so far, oldest first. */
    var alerts: seq<Alert>

    /** The first render and the mount effect (App.tsx:52-106): empty state,
        then the saved list hydrated, or nothing when storage is empty or
        unreadable. */
    constructor (initial: Stored)
      ensures projects == Load(initial)
      ensures currentProject == None && activeView == UploadView && !isLoading
      ensures stored == initial && alerts == []
    {
      projects := Load(initial);
      currentProject := None;
      activeView := UploadView;
      isLoading := false;
      stored := initial;
      alerts := [];
    }

    /** `saveProjects` (App.tsx:108-144): the full list goes to state even when
        the write throws; storage gets the stripped copy, which reloads as
        itself, or is left as it was with a storage-full alert. */
    method SaveProjects(updated: seq<Project>, writeOk: bool)
      modifies this
      ensures projects == updated
      ensures writeOk ==> stored == Saved(StripAll(updated)) && alerts == old(alerts)
      ensures writeOk ==> Load(stored) == StripAll(projects) && SameText(Load(stored), projects)
      ensures !writeOk ==> stored == old(stored) && alerts == old(alerts) + [StorageFull]
      ensures currentProject == old(currentProject) && activeView == old(activeView) && isLoading == old(isLoading)
    {
      projects := updated;
      if writeOk {
        stored := Saved(StripAll(updated));
        LoadAfterSave(updated);
      } else {
        alerts := alerts + [StorageFull];
      }
    }

    /** `handleImageUpload` (App.tsx:146-197). `fileRead` is the data URL the
        reader produced (None: `onerror`); `analysis` and `variations` are what
        the two service calls returned (None: the call threw); `id` and
        `createdAt` stand for the clock. The new project is appended and shown
        only when both calls succeed. */
    method HandleImageUpload(fileRead: Option<string>, mimeType: string, id: string, createdAt: string,
                             analysis: Option<string>, variations: Option<seq<StyleVariation>>, writeOk: bool)
      modifies this
      ensures !isLoading
      ensures fileRead.None? ==>
        && projects == old(projects) && currentProject == old(currentProject) && activeView == old(activeView)
        && stored == old(stored) && alerts == old(alerts) + [ReadFailed]
      ensures fileRead.Some? && (analysis.None? || variations.None?) ==>
        && projects == old(projects) && currentProject == old(currentProject) && activeView == old(activeView)
        && stored == old(stored) && alerts == old(alerts) + [GenerationFailed]
      ensures fileRead.Some? && analysis.Some? && variations.Some? ==>
        var p := NewProject(id, |old(projects)|, fileRead.value, mimeType, analysis.value, variations.value, createdAt);
        && projects == old(projects) + [p]
        && currentProject == Some(p)
        && activeView == ProjectView
        && (writeOk ==> stored == Saved(StripAll(projects)) && alerts == old(alerts))
        && (!writeOk ==> stored == old(stored) && alerts == old(alerts) + [StorageFull])
    {
      isLoading := true;
      match fileRead {
        case None =>
          alerts := alerts + [ReadFailed];
        case Some(url) =>
          if analysis.None? || variations.None? {
            alerts := alerts + [GenerationFailed];
          } else {
            var p := NewProject(id, |projects|, url, mimeType, analysis.value, variations.value, createdAt);
            currentProject := Some(p);
            SaveProjects(projects + [p], writeOk);
            activeView := ProjectView;
          }
      }
      isLoading := false;
    }

    /** `handleRefineRequest` (App.tsx:199-266) for the project on screen;
        `refined` is what `refineDesign` returned (None: it threw). Only a
        refinement that goes through changes the projects: the refined project
        goes on screen and replaces, by id, its copy in the collection. */
    method HandleRefineRequest(project: Project, styleName: string, prompt: string,
                               refined: Option<ImageBase64>, writeOk: bool)
      modifies this
      ensures !isLoading && activeView == old(activeView)
      ensures var d := DecideRefine(project, styleName, prompt, refined);
        && (!d.Refined? ==>
              && projects == old(projects) && currentProject == old(currentProject) && stored == old(stored)
              && alerts == old(alerts) + (if d.NoBase? then [NoBaseImage] else if d.ServiceFailed? then [RefineFailed] else []))
        && (d.Refined? ==>
              && currentProject == Some(d.updated)
              && projects == ReplaceById(old(projects), d.updated)
              && (writeOk ==> stored == Saved(StripAll(projects)) && alerts == old(alerts))
              && (!writeOk ==> stored == old(stored) && alerts == old(alerts) + [StorageFull]))
    {
      isLoading := true;
      var style := FindStyle(project, styleName);
      if style.None? {
        isLoading := false;
        return;
      }
      var base := BaseImage(style.value);
      if !Usable(base) {
        alerts := alerts + [NoBaseImage];
        isLoading := false;
        return;
      }
      match refined {
        case None =>
          alerts := alerts + [RefineFailed];
        case Some(newImageData) =>
          var updated := WithIteration(project, styleName, NewIteration(prompt, newImageData));
          currentProject := Some(updated);
          SaveProjects(ReplaceById(projects, updated), writeOk);
      }
      isLoading := false;
    }

    /** `deleteProject` (App.tsx:268-278): every project with the id goes, the
        others stay in order; the page changes as `ViewAfterDelete` says. */
    method DeleteProject(id: string, writeOk: bool)
      modifies this
      ensures projects == WithoutId(old(projects), id)
      ensures old(currentProject).Some? && old(currentProject).value.id == id ==> currentProject == None
      ensures !(old(currentProject).Some? && old(currentProject).value.id == id) ==> currentProject == old(currentProject)
      ensures activeView == ViewAfterDelete(old(activeView), old(currentProject), id, |projects|)
      ensures writeOk ==> stored == Saved(StripAll(projects)) && alerts == old(alerts)
      ensures !writeOk ==> stored == old(stored) && alerts == old(alerts) + [StorageFull]
      ensures isLoading == old(isLoading)
    {
      var view := activeView;
      var updated := WithoutId(projects, id);
      SaveProjects(updated, writeOk);
      if currentProject.Some? && currentProject.value.id == id {
        currentProject := None;
        activeView := UploadView;
      }
      if view == ArchiveView && |updated| == 0 {
        activeView := UploadView;
      }
    }

    /** `viewProject` (App.tsx:280-286): the first project with the id goes on
        screen; an unknown id changes nothing. */
    method ViewProject(id: string)
      modifies this
      ensures var found := Find(old(projects), (p: Project) => p.id == id);
        && (found.Some? ==> currentProject == found && activeView == ProjectView)
        && (found.None? ==> currentProject == old(currentProject) && activeView == old(activeView))
      ensures projects == old(projects) && stored == old(stored) && alerts == old(alerts) && isLoading == old(isLoading)
    {
      var found := Find(projects, (p: Project) => p.id == id);
      if found.Some? {
        currentProject := found;
        activeView := ProjectView;
      }
    }

    /** `handleViewChange` (App.tsx:288-293): going to the upload page also
        clears the project on screen. */
    method HandleViewChange(view: AppView)
      modifies this
      ensures activeView == view
      ensures view == UploadView ==> currentProject == None
      ensures view != UploadView ==> currentProject == old(currentProject)
      ensures projects == old(projects) && stored == old(stored) && alerts == old(alerts) && isLoading == old(isLoading)
    {
      if view == UploadView {
        currentProject := None;
      }
      activeView := view;
    }
  }
}

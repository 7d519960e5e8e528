/** The refinement panel of components/RefinementPanel.tsx: the list of
    images of a style (the baseline, then every iteration), which of them is
    shown large, the history strip, the iteration counter, and the prompt
    form with its guard. */
module RefinementPanel {
  import opened Wrappers
  import opened Strings
  import opened Types
  import App

  /** The caption the baseline entry carries (RefinementPanel.tsx:21). */
  const BaselinePrompt := "Diseño inicial"

  /** What the panel reads of an entry of `allImages`. */
  datatype Entry = Entry(imageUrl: string, prompt: string)

  /** `allImages` (RefinementPanel.tsx:20-23): the baseline entry, then the
      iterations in order. */
  function AllImages(v: StyleVariation): (r: seq<Entry>)
    ensures |r| == |v.iterations| + 1
    ensures r[0] == Entry(v.imageUrl, BaselinePrompt)
    ensures forall i :: 0 <= i < |v.iterations| ==>
      r[i + 1] == Entry(v.iterations[i].imageUrl, v.iterations[i].prompt)
  {
    [Entry(v.imageUrl, BaselinePrompt)]
      + seq(|v.iterations|, i requires 0 <= i < |v.iterations| =>
              Entry(v.iterations[i].imageUrl, v.iterations[i].prompt))
  }

  /** The large image: the last entry of `allImages` (RefinementPanel.tsx:36-37). */
  function MainImage(v: StyleVariation): string {
    var all := AllImages(v);
    all[|all| - 1].imageUrl
  }

  /** The panel shows the latest image: the last iteration's, or the baseline
      when there is none, which is the URL the refine handler decodes when
      it has no cached image. */
  lemma MainImageIsLatest(v: StyleVariation)
    ensures MainImage(v) == App.LatestUrl(v)
    ensures |v.iterations| > 0 ==> MainImage(v) == v.iterations[|v.iterations| - 1].imageUrl
    ensures |v.iterations| == 0 ==> MainImage(v) == v.imageUrl
  {
  }

  /** The counter `Iteración #n` (RefinementPanel.tsx:43). */
  function Counter(v: StyleVariation): nat {
    |v.iterations|
  }

  /** The history strip (RefinementPanel.tsx:47-51): every entry but the
      last, and nothing at all while there are no iterations. */
  function History(v: StyleVariation): seq<Entry> {
    if |v.iterations| > 0 then
      var all := AllImages(v);
      all[..|all| - 1]
    else []
  }

  /** The history and the main image together are all the images, and the
      history has as many entries as the counter says. */
  lemma HistoryAndMain(v: StyleVariation)
    requires |v.iterations| > 0
    ensures |History(v)| == Counter(v)
    ensures History(v) + [Entry(MainImage(v), v.iterations[|v.iterations| - 1].prompt)] == AllImages(v)
    ensures History(v)[0] == Entry(v.imageUrl, BaselinePrompt)
  {
    var all := AllImages(v);
    assert all[..|all| - 1] + [all[|all| - 1]] == all;
  }

  /** The submit button is disabled iff the trimmed prompt is empty
      (RefinementPanel.tsx:77). */
  predicate SubmitDisabled(prompt: string) {
    Trim(prompt) == ""
  }

  /** The guard in words: the button is disabled exactly for prompts made of white space only. */
  lemma SubmitDisabledIff(prompt: string)
    ensures SubmitDisabled(prompt) <==> IsBlank(prompt)
  {
    TrimEmpty(prompt);
  }

  class PromptForm {
    var prompt: string

    /** `useState('')` (RefinementPanel.tsx:10). */
    constructor ()
      ensures prompt == ""
    {
      prompt := "";
    }

    /** The text area's `onChange` (RefinementPanel.tsx:69). */
    method SetPrompt(text: string)
      modifies this
      ensures prompt == text
    {
      prompt := text;
    }

    /** `handleSubmit` (RefinementPanel.tsx:12-18): the prompt handed to
        `onRefine`, untrimmed, after which the field is cleared; a blank prompt
        sends nothing and keeps the field. */
    method HandleSubmit() returns (sent: Option<string>)
      modifies this
      ensures sent.Some? <==> !SubmitDisabled(old(prompt))
      ensures sent.Some? ==> sent.value == old(prompt) && prompt == ""
      ensures sent.None? ==> prompt == old(prompt)
    {
      if Trim(prompt) != "" {
        sent := Some(prompt);
        prompt := "";
      } else {
        sent := None;
      }
    }
  }
}

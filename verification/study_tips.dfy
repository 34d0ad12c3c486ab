/** The study-tips component: the predefined tips plus tips fetched on demand,
    newest first, with a loading flag and a displayed error. */
module Tips {
  import opened Types
  import Gemini

  const AI_CATEGORY := "AI Generated"

  /** Shown for any failure other than a missing key. */
  const TIP_FETCH_ERROR := "Sorry, couldn't fetch a new tip. Maybe try again?"

  /** The error the component shows for a rejection carrying `thrown`: the key
      message exactly when that is what was thrown, the fixed apology otherwise. */
  function TipError(thrown: string): (shown: string)
    ensures shown == KEY_ERROR <==> thrown == KEY_ERROR
    ensures shown == KEY_ERROR || shown == TIP_FETCH_ERROR
  {
    if thrown == KEY_ERROR then KEY_ERROR else TIP_FETCH_ERROR
  }

  /** The tip built from fetched `text`; `stamp` stands for the creation
      timestamp. It carries the text unchanged, is marked as AI-generated, and
      so is never one of the predefined tips. */
  function AiTip(text: string, stamp: string): (t: StudyTip)
    ensures t.text == text && t.category == Some(AI_CATEGORY)
    ensures t.id == "gemini-" + stamp
    ensures t !in PREDEFINED_STUDY_TIPS
  {
    StudyTip("gemini-" + stamp, text, Some(AI_CATEGORY))
  }

  class StudyTips {
    var tips: seq<StudyTip>
    var isLoading: bool
    var error: Option<string>
    /** The texts of the successful fetches so far, oldest first. */
    ghost var fetched: seq<string>

    /** The predefined tips are the suffix in their original order, and the
        tip at index k is the (k+1)-th most recent fetch. While a fetch is in
        flight no error is shown. */
    ghost predicate Valid()
      reads this
    {
      |tips| == |fetched| + |PREDEFINED_STUDY_TIPS| &&
      tips[|fetched|..] == PREDEFINED_STUDY_TIPS &&
      (forall k :: 0 <= k < |fetched| ==>
         tips[k].text == fetched[|fetched| - 1 - k] && tips[k].category == Some(AI_CATEGORY)) &&
      (isLoading ==> error == None)
    }

    constructor ()
      ensures Valid() && fetched == []
      ensures tips == PREDEFINED_STUDY_TIPS && !isLoading && error == None
    {
      tips := PREDEFINED_STUDY_TIPS;
      isLoading := false;
      error := None;
      fetched := [];
    }

    /** The fetch button is enabled only while no fetch is in flight. */
    predicate CanFetch()
      reads this
    {
      !isLoading
    }

    /** The start of a fetch: loading, error cleared, tips untouched. */
    method BeginFetch()
      requires Valid() && CanFetch()
      modifies this
      ensures Valid() && isLoading && error == None
      ensures tips == old(tips) && fetched == old(fetched)
    {
      isLoading := true;
      error := None;
    }

    /** The end of a fetch: a success prepends exactly one AI tip, a failure
        keeps the tips and shows the classified error; loading ends either way. */
    method CompleteFetch(result: Result<string>, stamp: string)
      requires Valid() && isLoading
      modifies this
      ensures Valid() && !isLoading
      ensures result.Ok? ==> tips == [AiTip(result.value, stamp)] + old(tips)
      ensures result.Ok? ==> fetched == old(fetched) + [result.value] && error == None
      ensures result.Err? ==> tips == old(tips) && fetched == old(fetched)
      ensures result.Err? ==> error == Some(TipError(result.message))
    {
      if result.Ok? {
        var newTip := AiTip(result.value, stamp);
        ghost var n := |fetched|;
        assert ([newTip] + tips)[n + 1..] == tips[n..];
        tips := [newTip] + tips;
        fetched := fetched + [result.value];
      } else {
        if result.message == KEY_ERROR {
          error := Some(KEY_ERROR);
        } else {
          error := Some(TIP_FETCH_ERROR);
        }
      }
      isLoading := false;
    }

    /** The button's handler: start, ask the service, settle. The key message
        is shown exactly when the service had no client and no usable key. */
    method GetNewTipFromAI(svc: Gemini.GeminiService, env: Gemini.Env, remote: Gemini.Remote, stamp: string)
      requires Valid() && CanFetch() && svc.Valid()
      modifies this, svc
      ensures Valid() && svc.Valid() && !isLoading
      ensures old(svc.ai).Some? ==> svc.ai == old(svc.ai)
      ensures old(svc.ai).None? ==> (svc.ai.Some? <==> Gemini.UsableKey(env).Some?)
      ensures svc.ai.None? ==> svc.sent == old(svc.sent)
      ensures svc.ai.Some? ==> svc.sent == old(svc.sent) + [Gemini.TIP_REQUEST]
      ensures svc.ai.Some? && remote.Responded? ==>
                tips == [AiTip(remote.text, stamp)] + old(tips) && error == None
      ensures !(svc.ai.Some? && remote.Responded?) ==> tips == old(tips)
      ensures error == Some(KEY_ERROR) <==> svc.ai.None?
      ensures svc.ai.Some? && remote.Threw? ==> error == Some(TIP_FETCH_ERROR)
    {
      BeginFetch();
      var result := svc.FetchStudyTip(env, remote);
      CompleteFetch(result, stamp);
    }
  }
}

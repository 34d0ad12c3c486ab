/** The concept-explainer component: a concept input, one request per
    submit, and the explanation rendered as paragraphs split on blank lines. */
module Explainer {
  import opened Types
  import Gemini

  const EMPTY_CONCEPT_ERROR := "Please enter a concept to explain."

  /** Shown for any failure other than a missing key. */
  const EXPLAIN_ERROR := "Whoops! Couldn't explain that. The AI might be stumped, or there's a connection hiccup. Try again?"

  /** The error the component shows for a rejection carrying `thrown`: the key
      message exactly when that is what was thrown, the fixed apology otherwise. */
  function ExplainError(thrown: string): (shown: string)
    ensures shown == KEY_ERROR <==> thrown == KEY_ERROR
    ensures shown == KEY_ERROR || shown == EXPLAIN_ERROR
  {
    if thrown == KEY_ERROR then KEY_ERROR else EXPLAIN_ERROR
  }

  /** The characters `String.prototype.trim` removes: ECMAScript WhiteSpace
      (tab, vertical tab, form feed, space, no-break space, byte order mark and
      the Unicode space separators) and LineTerminator (LF, CR, LS, PS). */
  predicate IsJsWhitespace(c: char) {
    c == '\t' || c == '\n' || c == '\U{000B}' || c == '\U{000C}' || c == '\r' || c == ' ' ||
    c == '\U{00A0}' || c == '\U{1680}' || ('\U{2000}' <= c <= '\U{200A}') ||
    c == '\U{2028}' || c == '\U{2029}' || c == '\U{202F}' || c == '\U{205F}' ||
    c == '\U{3000}' || c == '\U{FEFF}'
  }

  /** `s` without its leading whitespace. */
  function TrimStart(s: string): (r: string)
    ensures |r| <= |s| && r == s[|s| - |r|..]
    ensures forall i :: 0 <= i < |s| - |r| ==> IsJsWhitespace(s[i])
    ensures r != [] ==> !IsJsWhitespace(r[0])
  {
    if s != [] && IsJsWhitespace(s[0]) then TrimStart(s[1..]) else s
  }

  /** `s` without its trailing whitespace. */
  function TrimEnd(s: string): (r: string)
    ensures |r| <= |s| && r == s[..|r|]
    ensures forall i :: |r| <= i < |s| ==> IsJsWhitespace(s[i])
    ensures r != [] ==> !IsJsWhitespace(r[|r| - 1])
  {
    if s != [] && IsJsWhitespace(s[|s| - 1]) then TrimEnd(s[..|s| - 1]) else s
  }

  /** `s.trim()`: a stretch of `s` with neither end whitespace. */
  function Trim(s: string): (r: string)
    ensures |r| <= |s|
    ensures r != [] ==> !IsJsWhitespace(r[0]) && !IsJsWhitespace(r[|r| - 1])
  {
    TrimEnd(TrimStart(s))
  }

  /** A concept trims to nothing exactly when it is all whitespace. */
  lemma {:induction false} TrimEmptyIffBlank(s: string)
    ensures Trim(s) == "" <==> forall i :: 0 <= i < |s| ==> IsJsWhitespace(s[i])
  {
  }

  const SEPARATOR := "\n\n"

  /** `explanation.split('\n\n')`: cut at each leftmost, non-overlapping
      occurrence of a blank line; the empty text gives one empty paragraph. */
  function SplitParagraphs(s: string): (ps: seq<string>)
    ensures |ps| >= 1
    decreases |s|
  {
    if |s| < 2 then [s]
    else if s[0] == '\n' && s[1] == '\n' then [""] + SplitParagraphs(s[2..])
    else
      var rest := SplitParagraphs(s[1..]);
      [[s[0]] + rest[0]] + rest[1..]
  }

  /** The paragraphs glued back together with blank lines. */
  function JoinParagraphs(ps: seq<string>): string {
    if ps == [] then ""
    else if |ps| == 1 then ps[0]
    else ps[0] + SEPARATOR + JoinParagraphs(ps[1..])
  }

  predicate NoSeparator(p: string) {
    forall i :: 0 <= i < |p| - 1 ==> !(p[i] == '\n' && p[i + 1] == '\n')
  }

  /** The paragraph lists that splitting can produce: at least one paragraph,
      none containing a blank line, and none but the last ending in a newline. */
  predicate Separable(ps: seq<string>) {
    |ps| >= 1 &&
    (forall i :: 0 <= i < |ps| ==> NoSeparator(ps[i])) &&
    (forall i :: 0 <= i < |ps| - 1 ==> ps[i] == [] || ps[i][|ps[i]| - 1] != '\n')
  }

  lemma {:induction false} JoinCons(p: string, qs: seq<string>)
    requires |qs| >= 1
    ensures JoinParagraphs([p] + qs) == p + SEPARATOR + JoinParagraphs(qs)
  {
    assert ([p] + qs)[1..] == qs;
  }

  /** Growing the first paragraph by one character grows the joined text by it. */
  lemma {:induction false} JoinExtendFirst(c: char, ps: seq<string>)
    requires |ps| >= 1
    ensures JoinParagraphs([[c] + ps[0]] + ps[1..]) == [c] + JoinParagraphs(ps)
  {
    var q := [[c] + ps[0]] + ps[1..];
    if |ps| == 1 {
      assert q == [[c] + ps[0]];
    } else {
      assert q == [[c] + ps[0]] + ps[1..];
      JoinCons([c] + ps[0], ps[1..]);
      assert ps == [ps[0]] + ps[1..];
      JoinCons(ps[0], ps[1..]);
      assert ([c] + ps[0]) + SEPARATOR + JoinParagraphs(ps[1..])
          == [c] + (ps[0] + SEPARATOR + JoinParagraphs(ps[1..]));
    }
  }

  /** Rejoining the split paragraphs gives back the explanation. */
  lemma {:induction false} SplitJoinRoundTrip(s: string)
    ensures JoinParagraphs(SplitParagraphs(s)) == s
    decreases |s|
  {
    if |s| < 2 {
      assert SplitParagraphs(s) == [s];
    } else if s[0] == '\n' && s[1] == '\n' {
      SplitJoinRoundTrip(s[2..]);
      assert SplitParagraphs(s) == [""] + SplitParagraphs(s[2..]);
      JoinCons("", SplitParagraphs(s[2..]));
      assert s == SEPARATOR + s[2..];
    } else {
      var rest := SplitParagraphs(s[1..]);
      SplitJoinRoundTrip(s[1..]);
      assert SplitParagraphs(s) == [[s[0]] + rest[0]] + rest[1..];
      JoinExtendFirst(s[0], rest);
      assert s == [s[0]] + s[1..];
    }
  }

  /** The joined text starts with the first paragraph, followed by a blank
      line when more paragraphs come. */
  lemma {:induction false} JoinStartsWithFirst(ps: seq<string>)
    requires |ps| >= 1
    ensures |ps[0]| <= |JoinParagraphs(ps)| && JoinParagraphs(ps)[..|ps[0]|] == ps[0]
    ensures |ps| >= 2 ==>
      |ps[0]| + 2 <= |JoinParagraphs(ps)| &&
      JoinParagraphs(ps)[|ps[0]|] == '\n' && JoinParagraphs(ps)[|ps[0]| + 1] == '\n'
  {
    if |ps| >= 2 {
      JoinCons(ps[0], ps[1..]);
      assert ps == [ps[0]] + ps[1..];
    }
  }

  /** Every split satisfies `Separable`; in particular no paragraph contains a
      blank line. */
  lemma {:induction false} SplitIsSeparable(s: string)
    ensures Separable(SplitParagraphs(s))
    decreases |s|
  {
    var ps := SplitParagraphs(s);
    if |s| < 2 {
      assert ps == [s];
    } else if s[0] == '\n' && s[1] == '\n' {
      SplitIsSeparable(s[2..]);
      assert ps == [""] + SplitParagraphs(s[2..]);
    } else {
      var rest := SplitParagraphs(s[1..]);
      SplitIsSeparable(s[1..]);
      SplitJoinRoundTrip(s[1..]);
      JoinStartsWithFirst(rest);
      var head := [s[0]] + rest[0];
      assert ps == [head] + rest[1..];
      assert NoSeparator(head) by {
        forall i | 0 <= i < |head| - 1
          ensures !(head[i] == '\n' && head[i + 1] == '\n')
        {
          if i == 0 {
            assert head[1] == rest[0][0] == s[1..][0];
          } else {
            assert head[i] == rest[0][i - 1] && head[i + 1] == rest[0][i];
          }
        }
      }
      if |ps| >= 2 {
        if rest[0] == [] {
          assert s[1..][0] == '\n';
          assert head[|head| - 1] == s[0];
        } else {
          assert head[|head| - 1] == rest[0][|rest[0]| - 1];
        }
      }
      forall i | 1 <= i < |ps|
        ensures ps[i] == rest[i]
      {
      }
    }
  }

  /** A text with no blank line is a single paragraph. */
  lemma {:induction false} SplitSingle(p: string)
    requires NoSeparator(p)
    ensures SplitParagraphs(p) == [p]
    decreases |p|
  {
    if |p| >= 2 {
      assert NoSeparator(p[1..]) by {
        forall i | 0 <= i < |p[1..]| - 1
          ensures !(p[1..][i] == '\n' && p[1..][i + 1] == '\n')
        {
          assert p[1..][i] == p[i + 1] && p[1..][i + 1] == p[i + 2];
        }
      }
      SplitSingle(p[1..]);
      assert p == [p[0]] + p[1..];
    }
  }

  /** A paragraph that contains no blank line and does not end in a newline is
      cut off exactly at the blank line that follows it. */
  lemma {:induction false} SplitAfterParagraph(p: string, tail: string)
    requires NoSeparator(p)
    requires p == [] || p[|p| - 1] != '\n'
    ensures SplitParagraphs(p + SEPARATOR + tail) == [p] + SplitParagraphs(tail)
    decreases |p|
  {
    var s := p + SEPARATOR + tail;
    if p == [] {
      assert s == SEPARATOR + tail;
      assert s[2..] == tail;
    } else {
      var q := p[1..];
      assert NoSeparator(q) by {
        forall i | 0 <= i < |q| - 1
          ensures !(q[i] == '\n' && q[i + 1] == '\n')
        {
          assert q[i] == p[i + 1] && q[i + 1] == p[i + 2];
        }
      }
      SplitAfterParagraph(q, tail);
      assert s[1..] == q + SEPARATOR + tail;
      assert s[0] == p[0];
      assert !(s[0] == '\n' && s[1] == '\n') by {
        if q == [] {
          assert p == [p[0]];
        } else {
          assert s[1] == p[1];
        }
      }
      assert p == [p[0]] + q;
    }
  }

  /** Splitting undoes joining exactly for the `Separable` lists. */
  lemma {:induction false} JoinSplitRoundTrip(ps: seq<string>)
    requires Separable(ps)
    ensures SplitParagraphs(JoinParagraphs(ps)) == ps
  {
    if |ps| == 1 {
      SplitSingle(ps[0]);
    } else {
      var qs := ps[1..];
      assert Separable(qs) by {
        forall i | 0 <= i < |qs|
          ensures NoSeparator(qs[i])
        {
          assert qs[i] == ps[i + 1];
        }
        forall i | 0 <= i < |qs| - 1
          ensures qs[i] == [] || qs[i][|qs[i]| - 1] != '\n'
        {
          assert qs[i] == ps[i + 1];
        }
      }
      JoinSplitRoundTrip(qs);
      assert NoSeparator(ps[0]);
      SplitAfterParagraph(ps[0], JoinParagraphs(qs));
      assert ps == [ps[0]] + qs;
    }
  }

  /** Split and join are inverse: a paragraph list survives joining and
      splitting exactly when it is one that splitting can produce. */
  lemma {:induction false} JoinSplitExactly(ps: seq<string>)
    ensures SplitParagraphs(JoinParagraphs(ps)) == ps <==> Separable(ps)
  {
    if Separable(ps) {
      JoinSplitRoundTrip(ps);
    }
    SplitIsSeparable(JoinParagraphs(ps));
  }

  class ConceptExplainer {
    var concept: string
    var explanation: string
    var isLoading: bool
    var error: Option<string>

    /** While a request is in flight the explanation is empty and no error shows. */
    ghost predicate Valid()
      reads this
    {
      isLoading ==> explanation == "" && error == None
    }

    constructor ()
      ensures Valid()
      ensures concept == "" && explanation == "" && !isLoading && error == None
    {
      concept := "";
      explanation := "";
      isLoading := false;
      error := None;
    }

    /** The input accepts typing only while no request is in flight. */
    predicate InputEnabled()
      reads this
    {
      !isLoading
    }

    /** The submit button is enabled only when idle and the concept holds
        some non-whitespace character. */
    predicate SubmitEnabled()
      reads this
      ensures SubmitEnabled() <==>
                !isLoading && exists i :: 0 <= i < |concept| && !IsJsWhitespace(concept[i])
    {
      TrimEmptyIffBlank(concept);
      !isLoading && Trim(concept) != ""
    }

    method SetConcept(value: string)
      requires InputEnabled()
      modifies this`concept
      ensures concept == value
    {
      concept := value;
    }

    /** The synchronous part of a submit: a blank concept only sets the
        validation error; otherwise loading starts with the explanation and
        the error cleared. */
    method BeginExplain() returns (started: bool)
      requires Valid() && !isLoading
      modifies this
      ensures Valid() && concept == old(concept)
      ensures started <==> Trim(concept) != ""
      ensures !started ==> error == Some(EMPTY_CONCEPT_ERROR) && explanation == old(explanation) && !isLoading
      ensures started ==> isLoading && error == None && explanation == ""
    {
      if Trim(concept) == "" {
        error := Some(EMPTY_CONCEPT_ERROR);
        return false;
      }
      isLoading := true;
      error := None;
      explanation := "";
      started := true;
    }

    /** The request settles: the text verbatim, or the classified error with
        the explanation left empty; loading ends either way. */
    method CompleteExplain(result: Result<string>)
      requires Valid() && isLoading
      modifies this
      ensures Valid() && !isLoading && concept == old(concept)
      ensures result.Ok? ==> explanation == result.value && error == None
      ensures result.Err? ==> explanation == "" && error == Some(ExplainError(result.message))
    {
      if result.Ok? {
        explanation := result.value;
      } else {
        if result.message == KEY_ERROR {
          error := Some(KEY_ERROR);
        } else {
          error := Some(EXPLAIN_ERROR);
        }
      }
      isLoading := false;
    }

    /** The submit handler: validate, ask the service, settle. A blank concept
        makes no request at all. */
    method HandleExplainConcept(svc: Gemini.GeminiService, env: Gemini.Env, remote: Gemini.Remote)
      requires Valid() && !isLoading && svc.Valid()
      modifies this, svc
      ensures Valid() && svc.Valid() && !isLoading && concept == old(concept)
      ensures Trim(concept) == "" ==>
                error == Some(EMPTY_CONCEPT_ERROR) && explanation == old(explanation) &&
                svc.ai == old(svc.ai) && svc.sent == old(svc.sent)
      ensures Trim(concept) != "" && old(svc.ai).Some? ==> svc.ai == old(svc.ai)
      ensures Trim(concept) != "" && old(svc.ai).None? ==>
                (svc.ai.Some? <==> Gemini.UsableKey(env).Some?)
      ensures Trim(concept) != "" && svc.ai.None? ==>
                error == Some(KEY_ERROR) && explanation == "" && svc.sent == old(svc.sent)
      ensures Trim(concept) != "" && svc.ai.Some? ==>
                svc.sent == old(svc.sent) + [Gemini.ExplainRequest(concept)]
      ensures Trim(concept) != "" && svc.ai.Some? && remote.Responded? ==>
                explanation == remote.text && error == None
      ensures Trim(concept) != "" && svc.ai.Some? && remote.Threw? ==>
                explanation == "" && error == Some(EXPLAIN_ERROR)
    {
      var started := BeginExplain();
      if !started {
        return;
      }
      var result := svc.ExplainConcept(env, concept, remote);
      CompleteExplain(result);
    }

    /** The rendered paragraphs: shown once an explanation is present and no
        request is in flight; they rejoin to the explanation. */
    function Paragraphs(): (ps: seq<string>)
      reads this
      ensures explanation != "" && !isLoading ==>
                JoinParagraphs(ps) == explanation && Separable(ps)
      ensures explanation == "" || isLoading ==> ps == []
    {
      if explanation != "" && !isLoading then
        SplitJoinRoundTrip(explanation);
        SplitIsSeparable(explanation);
        SplitParagraphs(explanation)
      else []
    }
  }
}

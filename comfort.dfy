/** The comfort-message service of ai/openai/main.py: the reply of the language
    model is cut down to at most three complete sentences, and the diary date
    is checked for the YYYY-MM-DD shape before anything else happens. */
module Comfort {
  import opened Common

  // ---------------------------------------------------------------------
  // Splitting into sentences: re.split(r'(?<=[.!?])\s+', s)

  predicate IsTerminal(c: char) {
    c == '.' || c == '!' || c == '?'
  }

  /** A piece that ends in '.', '!' or '?' (str.endswith with that tuple). */
  predicate EndsSentence(p: string) {
    |p| > 0 && IsTerminal(p[|p| - 1])
  }

  /** Position i starts a whitespace run that the pattern matches: the
      character before it is terminal punctuation. */
  predicate IsBreak(s: string, i: int)
    requires 0 < i < |s|
  {
    IsTerminal(s[i - 1]) && IsSpace(s[i])
  }

  /** The first break at or after i, or |s| if there is none. */
  function FirstBreak(s: string, i: nat): (b: nat)
    requires 1 <= i <= |s|
    ensures i <= b <= |s|
    ensures b < |s| ==> IsBreak(s, b)
    ensures forall k :: i <= k < b ==> !IsBreak(s, k)
    decreases |s| - i
  {
    if i == |s| then |s|
    else if IsBreak(s, i) then i
    else FirstBreak(s, i + 1)
  }

  /** The end of the whitespace run starting at i. */
  function SpaceRunEnd(s: string, i: nat): (e: nat)
    requires i <= |s|
    ensures i <= e <= |s|
    ensures AllSpace(s[i..e])
    ensures e == |s| || !IsSpace(s[e])
    decreases |s| - i
  {
    if i < |s| && IsSpace(s[i]) then
      var e := SpaceRunEnd(s, i + 1);
      assert s[i..e] == [s[i]] + s[i + 1..e];
      e
    else i
  }

  /** A piece holds no break of its own. */
  predicate Unbroken(p: string) {
    forall k :: 0 < k < |p| ==> !IsBreak(p, k)
  }

  /** The pieces re.split produces: the input is cut at every maximal
      whitespace run that follows '.', '!' or '?', and the run is dropped. Every
      piece but the last ends in terminal punctuation, and no piece contains a
      place where the pattern would have matched. */
  function SplitSentences(s: string): (pieces: seq<string>)
    ensures |pieces| >= 1
    ensures forall k :: 0 <= k < |pieces| - 1 ==> EndsSentence(pieces[k])
    ensures forall k :: 0 <= k < |pieces| ==> Unbroken(pieces[k])
    ensures s == [] ==> pieces == [[]]
    ensures s != [] ==> pieces[0] != [] && StartsWith(s, pieces[0])
    decreases |s|
  {
    if s == [] then [s]
    else
      var b := FirstBreak(s, 1);
      if b == |s| then
        assert forall k :: 0 < k < |s| ==> !IsBreak(s, k);
        [s]
      else
        var e := SpaceRunEnd(s, b);
        var head := s[..b];
        assert forall k :: 0 < k < |head| ==> !IsBreak(head, k) by {
          forall k | 0 < k < |head| ensures !IsBreak(head, k) {
            assert head[k - 1] == s[k - 1] && head[k] == s[k];
            assert !IsBreak(s, k);
          }
        }
        [head] + SplitSentences(s[e..])
  }

  /** The pieces put back together, separator k between piece k and piece
      k + 1. */
  function Interleave(pieces: seq<string>, seps: seq<string>): (r: string)
    requires |pieces| >= 1 && |seps| == |pieces| - 1
    ensures StartsWith(r, pieces[0])
    decreases |pieces|
  {
    if |pieces| == 1 then pieces[0]
    else pieces[0] + seps[0] + Interleave(pieces[1..], seps[1..])
  }

  /** Every separator is a non-empty whitespace run. */
  predicate SpaceRuns(seps: seq<string>) {
    forall k :: 0 <= k < |seps| ==> seps[k] != [] && AllSpace(seps[k])
  }

  lemma InterleaveCons(head: string, sep: string, pieces: seq<string>, seps: seq<string>)
    requires |pieces| >= 1 && |seps| == |pieces| - 1
    ensures Interleave([head] + pieces, [sep] + seps) == head + sep + Interleave(pieces, seps)
  {
    assert ([head] + pieces)[1..] == pieces && ([sep] + seps)[1..] == seps;
  }

  lemma SpaceRunsCons(sep: string, seps: seq<string>)
    requires sep != [] && AllSpace(sep) && SpaceRuns(seps)
    ensures SpaceRuns([sep] + seps)
  {
    assert forall k :: 1 <= k < |[sep] + seps| ==> ([sep] + seps)[k] == seps[k - 1];
  }

  /** One step of the split: the first piece runs up to the first break,
      and the rest is split after the whitespace run. */
  lemma SplitStep(s: string)
    requires s != [] && FirstBreak(s, 1) < |s|
    ensures var b := FirstBreak(s, 1);
      b < SpaceRunEnd(s, b) &&
      SplitSentences(s) == [s[..b]] + SplitSentences(s[SpaceRunEnd(s, b)..])
  {
  }

  /** A rebuilding of the rest after the first whitespace run extends to
      a rebuilding of the whole input. */
  lemma RebuildStep(s: string, seps: seq<string>)
    requires s != [] && FirstBreak(s, 1) < |s|
    requires var rest := SplitSentences(s[SpaceRunEnd(s, FirstBreak(s, 1))..]);
      |seps| == |rest| - 1 && SpaceRuns(seps) &&
      s[SpaceRunEnd(s, FirstBreak(s, 1))..] == Interleave(rest, seps)
    ensures var sep := s[FirstBreak(s, 1)..SpaceRunEnd(s, FirstBreak(s, 1))];
      |[sep] + seps| == |SplitSentences(s)| - 1 && SpaceRuns([sep] + seps) &&
      s == Interleave(SplitSentences(s), [sep] + seps)
  {
    var b := FirstBreak(s, 1);
    var e := SpaceRunEnd(s, b);
    var rest := s[e..];
    SplitStep(s);
    var sep := s[b..e];
    assert IsSpace(s[b]);
    SpaceRunsCons(sep, seps);
    InterleaveCons(s[..b], sep, SplitSentences(rest), seps);
    assert s == s[..b] + sep + rest;
  }

  /** The split loses nothing but the separators: the input is its pieces
      with a non-empty whitespace run between each two of them. */
  lemma {:induction false} SplitSentencesRebuilds(s: string)
    ensures var pieces := SplitSentences(s);
      exists seps :: |seps| == |pieces| - 1 && SpaceRuns(seps) && s == Interleave(pieces, seps)
    decreases |s|
  {
    if s == [] {
      assert Interleave(SplitSentences(s), []) == s;
    } else if FirstBreak(s, 1) == |s| {
      assert SplitSentences(s) == [s];
      assert Interleave(SplitSentences(s), []) == s;
    } else {
      var b := FirstBreak(s, 1);
      var e := SpaceRunEnd(s, b);
      var rest := s[e..];
      SplitSentencesRebuilds(rest);
      var seps' :| |seps'| == |SplitSentences(rest)| - 1 && SpaceRuns(seps') && rest == Interleave(SplitSentences(rest), seps');
      RebuildStep(s, seps');
      var seps := [s[b..e]] + seps';
      assert |seps| == |SplitSentences(s)| - 1 && SpaceRuns(seps) && s == Interleave(SplitSentences(s), seps);
    }
  }

  /** Each whitespace run is maximal: the piece after it is empty or starts
      with a character that is not whitespace. */
  lemma SplitRunsMaximal(s: string)
    ensures var pieces := SplitSentences(s);
      forall k :: 1 <= k < |pieces| ==> pieces[k] == [] || !IsSpace(pieces[k][0])
  {
    if s != [] && FirstBreak(s, 1) < |s| {
      var b := FirstBreak(s, 1);
      var e := SpaceRunEnd(s, b);
      var rest := s[e..];
      SplitStep(s);
      SplitRunsMaximal(rest);
      var pieces := SplitSentences(s);
      var restPieces := SplitSentences(rest);
      forall k | 1 <= k < |pieces| ensures pieces[k] == [] || !IsSpace(pieces[k][0]) {
        assert pieces[k] == restPieces[k - 1];
        if k == 1 && rest != [] {
          assert restPieces[0][0] == rest[0] == s[e];
        }
      }
    }
  }

  /** The pieces that end in terminal punctuation, in their original order. */
  function Complete(pieces: seq<string>): (r: seq<string>)
    ensures |r| <= |pieces|
    ensures forall k :: 0 <= k < |r| ==> EndsSentence(r[k]) && r[k] in pieces
    ensures forall p :: p in pieces && EndsSentence(p) ==> p in r
  {
    if pieces == [] then []
    else
      var rest := Complete(pieces[1..]);
      if EndsSentence(pieces[0]) then [pieces[0]] + rest else rest
  }

  /** The filter keeps the order of its input: filtering a concatenation is
      the concatenation of the filtered parts. */
  lemma {:induction false} CompleteConcat(a: seq<string>, b: seq<string>)
    ensures Complete(a + b) == Complete(a) + Complete(b)
  {
    if a == [] {
      assert a + b == b;
    } else {
      assert (a + b)[0] == a[0];
      assert (a + b)[1..] == a[1..] + b;
      CompleteConcat(a[1..], b);
    }
  }

  /** ' '.join(ps). */
  function Join(ps: seq<string>): (r: string)
    ensures ps == [] ==> r == []
    ensures ps != [] ==> StartsWith(r, ps[0]) && EndsWith(r, ps[|ps| - 1])
  {
    if ps == [] then []
    else if |ps| == 1 then ps[0]
    else
      var rest := Join(ps[1..]);
      var r := ps[0] + " " + rest;
      assert r[..|ps[0]|] == ps[0];
      assert r[|r| - |rest|..] == rest;
      assert ps[1..][|ps[1..]| - 1] == ps[|ps| - 1];
      assert r[|r| - |ps[|ps| - 1]|..] == rest[|rest| - |ps[|ps| - 1]|..];
      r
  }

  lemma JoinTwo(a: string, b: string)
    ensures Join([a, b]) == a + " " + b
  {
    assert [a, b][1..] == [b];
  }

  const Fallback: string := "오늘의 기분이 담긴 따뜻한 하루였어요. 내일도 좋은 순간들이 가득하길 바랍니다!"

  /** The sentences truncate_to_complete_sentences keeps: the complete pieces
      of the stripped text, at most maxSentences of them, from the front. */
  function Selected(text: string, maxSentences: nat): (chosen: seq<string>)
    ensures |chosen| <= maxSentences
    ensures forall k :: 0 <= k < |chosen| ==> EndsSentence(chosen[k]) && chosen[k] in SplitSentences(Strip(text))
    ensures |chosen| <= |Complete(SplitSentences(Strip(text)))|
    ensures chosen == Complete(SplitSentences(Strip(text)))[..|chosen|]
    ensures |chosen| < maxSentences ==> chosen == Complete(SplitSentences(Strip(text)))
  {
    var all := Complete(SplitSentences(Strip(text)));
    if |all| <= maxSentences then all else all[..maxSentences]
  }

  /** truncate_to_complete_sentences: the kept sentences joined by single
      spaces, or the fixed fallback when none is kept. Either way the message
      ends in terminal punctuation. */
  function TruncateToCompleteSentences(text: string, maxSentences: nat := 3): (r: string)
    ensures Selected(text, maxSentences) == [] ==> r == Fallback
    ensures Selected(text, maxSentences) != [] ==> r == Join(Selected(text, maxSentences))
    ensures EndsSentence(r)
  {
    var chosen := Selected(text, maxSentences);
    if chosen == [] then Fallback
    else
      assert EndsWith(Join(chosen), chosen[|chosen| - 1]);
      Join(chosen)
  }

  /** Empty or blank input has no complete sentence. */
  lemma BlankGivesFallback(text: string, maxSentences: nat)
    requires AllSpace(text)
    ensures TruncateToCompleteSentences(text, maxSentences) == Fallback
  {
    StripEmptyIffBlank(text);
    assert Complete([[]]) == [];
  }

  /** No '.', '!' or '?' anywhere in s. */
  predicate Unpunctuated(s: string) {
    '.' !in s && '!' !in s && '?' !in s
  }

  /** Without terminal punctuation there is no break, so the whole string is
      the single piece. */
  lemma SplitWithoutTerminal(s: string)
    requires Unpunctuated(s)
    ensures SplitSentences(s) == [s]
  {
    if s != [] {
      forall k | 0 < k < |s| ensures !IsBreak(s, k) {
        assert s[k - 1] in s;
      }
      assert FirstBreak(s, 1) == |s|;
    }
  }

  /** A reply without any '.', '!' or '?' is never used. */
  lemma NoPunctuationGivesFallback(text: string, maxSentences: nat)
    requires Unpunctuated(text)
    ensures TruncateToCompleteSentences(text, maxSentences) == Fallback
  {
    var s := Strip(text);
    StripSubset(text);
    SplitWithoutTerminal(s);
    if s != [] {
      assert s[|s| - 1] in s;
    }
    assert !EndsSentence(s);
    var one: seq<string> := [s];
    assert one[1..] == [];
    assert Complete(one) == [];
  }

  /** One complete sentence followed by a fragment without punctuation: the
      fragment is dropped and the sentence alone is returned. */
  lemma {:induction false} TrailingFragmentDropped(a: string, b: string)
    requires EndsSentence(a) && Unbroken(a) && !IsSpace(a[0])
    requires b != [] && !IsSpace(b[0]) && !IsSpace(b[|b| - 1])
    requires Unpunctuated(b)
    ensures TruncateToCompleteSentences(a + " " + b) == a
  {
    var s := a + " " + b;
    assert s[0] == a[0];
    assert TrimLeft(s) == s;
    assert s[|s| - 1] == b[|b| - 1];
    assert TrimRight(s) == s;
    assert Strip(s) == s;
    var n := |a|;
    assert IsBreak(s, n) by { assert s[n - 1] == a[n - 1] && s[n] == ' '; }
    var brk := FirstBreak(s, 1);
    if brk < n {
      assert s[brk - 1] == a[brk - 1] && s[brk] == a[brk];
      assert IsBreak(a, brk);
      assert false;
    }
    assert brk == n;
    assert s[n + 1] == b[0];
    assert SpaceRunEnd(s, n + 1) == n + 1;
    assert SpaceRunEnd(s, n) == n + 1;
    assert s[..n] == a && s[n + 1..] == b;
    SplitWithoutTerminal(b);
    assert SplitSentences(s) == [a, b];
    assert !EndsSentence(b);
    assert Complete([a, b]) == [a] by {
      assert [a, b][1..] == [b];
      assert Complete([b]) == [] by { assert [b][1..] == []; }
    }
  }

  // ---------------------------------------------------------------------
  // The endpoint

  /** The date test of analyze_diary: non-empty, ten characters, '-' at
      indices 4 and 7. Digits are not checked. */
  predicate DateShapeOk(date: string) {
    date != [] && |date| == 10 && date[4] == '-' && date[7] == '-'
  }

  lemma DateShapeExamples()
    ensures DateShapeOk("2024-05-17")
    ensures DateShapeOk("abcd-ef-gh")
    ensures !DateShapeOk("2024/05/17")
    ensures !DateShapeOk("2024-5-17")
  {
  }

  /** analyze_diary: a badly shaped date, or a reply with no content, fails;
      the broad exception handler turns the date's 400 into a 500 as well.
      The reply is the model's message content, None when there is none. */
  function AnalyzeDiary(date: string, reply: Option<string>): (r: Result<string>)
    ensures r.Ok? <==> DateShapeOk(date) && reply.Some? && reply.value != []
    ensures r.Err? ==> r.error.status == 500
    ensures !DateShapeOk(date) ==> r == Err(HttpError(500, BadDateFormat))
    ensures r.Ok? ==> r.value == TruncateToCompleteSentences(Strip(reply.value)) && EndsSentence(r.value)
  {
    if !DateShapeOk(date) then Err(HttpError(500, BadDateFormat))
    else if reply.None? || reply.value == [] then Err(HttpError(500, UpstreamFailed))
    else Ok(TruncateToCompleteSentences(Strip(reply.value)))
  }

  /** A reply made only of whitespace still counts as content and becomes
      the fallback message. */
  lemma BlankReplyGivesFallback(date: string)
    requires DateShapeOk(date)
    ensures AnalyzeDiary(date, Some(" ")) == Ok(Fallback)
  {
    assert Strip(" ") == [];
    BlankGivesFallback(Strip(" "), 3);
  }
}

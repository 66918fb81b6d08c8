/** The validators and text post-processing of the AI service
    (ai/ai_service.py): the audio-upload checks in front of speech-to-text,
    the birthday checks in front of the fortune, the diary endpoint's date
    check and period cut, and the fallbacks of emotion extraction. The calls
    to the language and speech models are replaced by their replies, passed
    in as parameters. */
module AiService {
  import opened Common
  import Comfort

  // ---------------------------------------------------------------------
  // Audio uploads

  const AudioExtensions: set<string> := {"mp3", "wav", "m4a", "ogg", "flac", "aac"}
  const MaxAudioBytes := 50 * 1024 * 1024
  const MinAudioBytes := 100

  /** filename.rsplit('.', 1)[1]: everything after the last '.'. */
  function AfterLastDot(filename: string): (suffix: string)
    requires '.' in filename
    ensures '.' !in suffix
    ensures EndsWith(filename, "." + suffix)
  {
    var i := LastIndex(filename, '.');
    var suffix := filename[i + 1..];
    assert forall j :: 0 <= j < |suffix| ==> suffix[j] == filename[i + 1 + j];
    assert filename[|filename| - |"." + suffix|..] == "." + suffix;
    suffix
  }

  /** allowed_file: the name has a '.', and what follows the last one,
      lowercased, is a supported audio extension. A leading dot counts, so
      ".wav" is allowed. */
  predicate AllowedFile(filename: string) {
    '.' in filename && Lower(AfterLastDot(filename)) in AudioExtensions
  }

  /** Lowercasing commutes with taking a suffix. */
  lemma LowerSuffix(s: string, i: nat)
    requires i <= |s|
    ensures Lower(s)[i..] == Lower(s[i..])
  {
  }

  lemma ExtensionsHaveNoDot(ext: string)
    requires ext in AudioExtensions
    ensures '.' !in ext
  {
  }

  /** A suffix that starts with the only '.' in it marks where rsplit
      splits. */
  lemma DotIsLast(filename: string, j: nat)
    requires j < |filename| && filename[j..][0] == '.'
    requires forall k :: 0 < k < |filename[j..]| ==> filename[j..][k] != '.'
    ensures AfterLastDot(filename) == filename[j + 1..]
  {
    assert forall k :: j < k < |filename| ==> filename[k] == filename[j..][k - j];
    assert LastIndex(filename, '.') == j;
  }

  /** Lowercasing neither creates nor removes a '.'. */
  lemma DotsSurviveLower(tail: string, ext: string)
    requires '.' !in ext && Lower(tail) == "." + ext
    ensures tail[0] == '.'
    ensures forall k :: 0 < k < |tail| ==> tail[k] != '.'
  {
    var low := Lower(tail);
    assert LowerChar(tail[0]) == low[0];
    forall k | 0 < k < |tail| ensures tail[k] != '.' {
      assert LowerChar(tail[k]) == low[k] == ext[k - 1];
    }
  }

  /** A name whose lowercased form ends in '.' and a dot-free ext has ext,
      lowercased, after its last '.'. */
  lemma EndingGivesSuffix(filename: string, ext: string)
    requires '.' !in ext
    requires EndsWith(Lower(filename), "." + ext)
    ensures '.' in filename && Lower(AfterLastDot(filename)) == ext
  {
    var j := |filename| - |ext| - 1;
    var low := Lower(filename);
    LowerSuffix(filename, j);
    DotsSurviveLower(filename[j..], ext);
    DotIsLast(filename, j);
    LowerSuffix(filename, j + 1);
    assert low[j + 1..] == low[j..][1..];
  }

  /** allowed_file, stated without rsplit: a name whose lowercased form ends
      in '.' and a supported extension is allowed. */
  lemma AllowedByEnding(filename: string, ext: string)
    requires ext in AudioExtensions
    requires EndsWith(Lower(filename), "." + ext)
    ensures AllowedFile(filename)
  {
    ExtensionsHaveNoDot(ext);
    EndingGivesSuffix(filename, ext);
  }

  /** Conversely, an allowed name ends, once lowercased, in '.' and the
      extension it was allowed for. */
  lemma AllowedHasEnding(filename: string)
    requires AllowedFile(filename)
    ensures Lower(AfterLastDot(filename)) in AudioExtensions
    ensures EndsWith(Lower(filename), "." + Lower(AfterLastDot(filename)))
  {
    var suffix := AfterLastDot(filename);
    var j := |filename| - |suffix| - 1;
    assert filename[j..] == "." + suffix;
    LowerSuffix(filename, j);
    assert Lower("." + suffix) == "." + Lower(suffix);
  }

  /** Only what follows the last '.' counts. */
  lemma AfterLastDotOf(a: string, t: string)
    requires '.' !in t
    ensures AfterLastDot(a + "." + t) == t
  {
    var s := a + "." + t;
    var i := LastIndex(s, '.');
    assert s[|a|] == '.';
    assert forall k :: |a| < k < |s| ==> s[k] == t[k - |a| - 1];
    assert i == |a|;
    assert s[i + 1..] == t;
  }

  /** A supported extension earlier in the name does not help: "memo.wav.txt"
      is refused. */
  lemma OnlyLastSuffixCounts(a: string, t: string)
    requires '.' !in t && Lower(t) !in AudioExtensions
    ensures !AllowedFile(a + "." + t)
  {
    AfterLastDotOf(a, t);
  }

  /** rsplit and splitext disagree on names that start with their only dot. */
  lemma LeadingDotNameAllowed()
    ensures AllowedFile(".wav") && AllowedFile("Memo.M4A")
    ensures !AllowedFile("wav")
  {
    AllowedByEnding(".wav", "wav");
    AllowedByEnding("Memo.M4A", "m4a");
  }

  /** The checks of transcribe_audio_endpoint, in order: a file name, a
      supported extension, at most 50 MiB, at least 100 bytes. */
  function CheckAudioUpload(filename: Option<string>, size: nat): (r: Result<Unit>)
    ensures r.Ok? <==> filename.Some? && filename.value != [] && AllowedFile(filename.value)
                       && MinAudioBytes <= size <= MaxAudioBytes
    ensures r.Err? ==> r.error.status == 400
    ensures filename.None? || filename.value == [] ==> r == Err(HttpError(400, NoAudioFile))
    ensures filename.Some? && filename.value != [] && AllowedFile(filename.value) && size > MaxAudioBytes ==>
              r == Err(HttpError(400, AudioTooLarge))
  {
    if filename.None? || filename.value == [] then Err(HttpError(400, NoAudioFile))
    else if !AllowedFile(filename.value) then Err(HttpError(400, UnsupportedAudio))
    else if size > MaxAudioBytes then Err(HttpError(400, AudioTooLarge))
    else if size < MinAudioBytes then Err(HttpError(400, AudioTooSmall))
    else Ok(Unit)
  }

  /** transcribe_audio_endpoint: after the checks, the speech model's outcome
      is passed through, and a failed transcription is a 500. */
  function Transcribe<T>(filename: Option<string>, size: nat, outcome: Option<T>): (r: Result<T>)
    ensures CheckAudioUpload(filename, size).Err? ==> r == Err(CheckAudioUpload(filename, size).error)
    ensures CheckAudioUpload(filename, size).Ok? ==>
              (r.Ok? <==> outcome.Some?) && (r.Ok? ==> r.value == outcome.value) &&
              (r.Err? ==> r.error == HttpError(500, TranscriptionFailed))
  {
    var check := CheckAudioUpload(filename, size);
    if check.Err? then Err(check.error)
    else if outcome.None? then Err(HttpError(500, TranscriptionFailed))
    else Ok(outcome.value)
  }

  // ---------------------------------------------------------------------
  // Birthday and fortune

  predicate AllDigits(s: string) {
    forall i :: 0 <= i < |s| ==> IsAsciiDigit(s[i])
  }

  /** birthday[:4], birthday[4:6], birthday[6:], with Python's clamping
      slices. */
  function BirthParts(birthday: string): (parts: (string, string, string))
    ensures parts.0 + parts.1 + parts.2 == birthday
    ensures |birthday| == 8 ==> |parts.0| == 4 && |parts.1| == 2 && |parts.2| == 2
    ensures AllDigits(birthday) ==> AllDigits(parts.0) && AllDigits(parts.1) && AllDigits(parts.2)
  {
    var a := if |birthday| < 4 then |birthday| else 4;
    var b := if |birthday| < 6 then |birthday| else 6;
    assert birthday[..a] + birthday[a..b] + birthday[b..] == birthday;
    assert AllDigits(birthday) ==> AllDigits(birthday[..a]) && AllDigits(birthday[a..b]) && AllDigits(birthday[b..]) by {
      if AllDigits(birthday) {
        assert forall i :: 0 <= i < |birthday[a..b]| ==> birthday[a..b][i] == birthday[a + i];
        assert forall i :: 0 <= i < |birthday[b..]| ==> birthday[b..][i] == birthday[b + i];
      }
    }
    (birthday[..a], birthday[a..b], birthday[b..])
  }

  datatype BirthDate = BirthDate(year: nat, month: nat, day: nat)

  /** The checks of get_fortune, in order: eight digits, then the year in
      [1900, 2100], the month in [1, 12], the day in [1, 31]. Each failure is a
      400; there is no calendar check. */
  function BirthdayCheck(birthday: string): (r: Result<BirthDate>)
    ensures r.Ok? ==> |birthday| == 8 && AllDigits(birthday)
    ensures !(|birthday| == 8 && AllDigits(birthday)) ==> r == Err(HttpError(400, BirthdayFormat))
    ensures r.Err? ==> r.error.status == 400
    ensures r.Ok? ==> 1900 <= r.value.year <= 2100 && 1 <= r.value.month <= 12 && 1 <= r.value.day <= 31
    ensures r.Ok? ==> var p := BirthParts(birthday);
                      r.value == BirthDate(DecimalValue(p.0), DecimalValue(p.1), DecimalValue(p.2))
    ensures |birthday| == 8 && AllDigits(birthday) ==>
              var p := BirthParts(birthday);
              var y, m, d := DecimalValue(p.0), DecimalValue(p.1), DecimalValue(p.2);
              (r.Ok? <==> 1900 <= y <= 2100 && 1 <= m <= 12 && 1 <= d <= 31) &&
              (!(1900 <= y <= 2100) ==> r == Err(HttpError(400, BirthYearRange))) &&
              (1900 <= y <= 2100 && !(1 <= m <= 12) ==> r == Err(HttpError(400, BirthMonthRange))) &&
              (1900 <= y <= 2100 && 1 <= m <= 12 && !(1 <= d <= 31) ==> r == Err(HttpError(400, BirthDayRange)))
  {
    if birthday == [] || !AllDigits(birthday) || |birthday| != 8 then Err(HttpError(400, BirthdayFormat))
    else
      var p := BirthParts(birthday);
      assert p.0 == birthday[..4] && p.1 == birthday[4..6] && p.2 == birthday[6..];
      var year := DecimalValue(p.0);
      var month := DecimalValue(p.1);
      var day := DecimalValue(p.2);
      if year < 1900 || year > 2100 then Err(HttpError(400, BirthYearRange))
      else if month < 1 || month > 12 then Err(HttpError(400, BirthMonthRange))
      else if day < 1 || day > 31 then Err(HttpError(400, BirthDayRange))
      else Ok(BirthDate(year, month, day))
  }

  function DigitValue(c: char): nat
    requires IsAsciiDigit(c)
  {
    c as int - '0' as int
  }

  lemma TwoDigits(s: string)
    requires |s| == 2 && AllDigits(s)
    ensures DecimalValue(s) == 10 * DigitValue(s[0]) + DigitValue(s[1])
  {
    var h := s[..1];
    assert h[..0] == [] && h[0] == s[0];
    assert DecimalValue(h) == 10 * DecimalValue(h[..0]) + DigitValue(s[0]);
  }

  lemma FourDigits(s: string)
    requires |s| == 4 && AllDigits(s)
    ensures DecimalValue(s) == 1000 * DigitValue(s[0]) + 100 * DigitValue(s[1]) + 10 * DigitValue(s[2]) + DigitValue(s[3])
  {
    var t := s[..3];
    assert t[..2] == s[..2];
    TwoDigits(s[..2]);
  }

  /** The year is checked before the month. */
  lemma YearCheckedFirst()
    ensures BirthdayCheck("18991399") == Err(HttpError(400, BirthYearRange))
    ensures BirthdayCheck("20001399") == Err(HttpError(400, BirthMonthRange))
  {
    FourDigits("1899");
    FourDigits("2000");
    TwoDigits("13");
    assert "18991399"[..4] == "1899";
    assert "20001399"[..4] == "2000" && "20001399"[4..6] == "13";
  }

  /** There is no calendar check: the 31st of February passes. */
  lemma NoCalendarCheck()
    ensures BirthdayCheck("19990231") == Ok(BirthDate(1999, 2, 31))
  {
    FourDigits("1999");
    TwoDigits("02");
    TwoDigits("31");
    assert "19990231"[..4] == "1999" && "19990231"[4..6] == "02" && "19990231"[6..] == "31";
  }

  /** A date written with separators is refused as a whole before any range
      is looked at. */
  lemma SeparatorsRefused()
    ensures BirthdayCheck("1999-2-3") == Err(HttpError(400, BirthdayFormat))
  {
    assert !IsAsciiDigit("1999-2-3"[4]);
  }

  /** get_fortune: the checks, then generate_fortune. A missing key or a
      reply with no content (None) is a 500; any other reply, even an empty
      one, is returned stripped. */
  function Fortune(birthday: string, hasKey: bool, reply: Option<string>): (r: Result<string>)
    ensures BirthdayCheck(birthday).Err? ==> r == Err(BirthdayCheck(birthday).error)
    ensures r.Ok? <==> BirthdayCheck(birthday).Ok? && hasKey && reply.Some?
    ensures r.Ok? ==> r.value == Strip(reply.value)
    ensures BirthdayCheck(birthday).Ok? && r.Err? ==> r.error == HttpError(500, UpstreamFailed)
  {
    var check := BirthdayCheck(birthday);
    if check.Err? then Err(check.error)
    else if !hasKey || reply.None? then Err(HttpError(500, UpstreamFailed))
    else Ok(Strip(reply.value))
  }

  // ---------------------------------------------------------------------
  // Diary analysis: cut after the second period

  /** The position just after the n-th occurrence of c, if there is one
      (the end of the n-th match of re.finditer). */
  function NthEnd(s: string, c: char, n: nat): (e: Option<nat>)
    requires n >= 1
    ensures e.Some? ==> 1 <= e.value <= |s| && s[e.value - 1] == c
  {
    if s == [] then None
    else
      var rest := if s[0] == c && n == 1 then Some(0) else NthEnd(s[1..], c, if s[0] == c then n - 1 else n);
      if rest.None? then None else Some(rest.value + 1)
  }

  /** There is an n-th occurrence exactly when c occurs at least n times,
      and the prefix up to it holds exactly n of them. */
  lemma {:induction false} NthEndCount(s: string, c: char, n: nat)
    requires n >= 1
    ensures NthEnd(s, c, n).Some? <==> Count(s, c) >= n
    ensures NthEnd(s, c, n).Some? ==> Count(s[..NthEnd(s, c, n).value], c) == n
  {
    if s != [] {
      var m := if s[0] == c then n - 1 else n;
      if !(s[0] == c && n == 1) {
        NthEndCount(s[1..], c, m);
      }
      var e := NthEnd(s, c, n);
      if e.Some? {
        assert s[..e.value][1..] == s[1..][..e.value - 1];
      }
    }
  }

  /** The period cut of analyze_diary: up to and including the second '.',
      or the only '.', or the whole message when there is none. */
  function CutAtSecondPeriod(s: string): (r: string)
    ensures StartsWith(s, r)
    ensures Count(r, '.') == if Count(s, '.') < 2 then Count(s, '.') else 2
    ensures Count(s, '.') > 0 ==> EndsWith(r, ".")
    ensures Count(s, '.') == 0 ==> r == s
  {
    NthEndCount(s, '.', 2);
    match NthEnd(s, '.', 2)
    case Some(e) => s[..e]
    case None =>
      NthEndCount(s, '.', 1);
      match NthEnd(s, '.', 1)
      case Some(e) => s[..e]
      case None => s
  }

  /** The occurrence count restarts after a period-free prefix and its
      period: the first period ends at |a| + 1, and the second ends |a| + 1
      after the first of the rest. */
  lemma {:induction false} NthEndAfter(a: string, rest: string)
    requires '.' !in a
    ensures NthEnd(a + "." + rest, '.', 1) == Some(|a| + 1)
    ensures NthEnd(rest, '.', 1).None? ==> NthEnd(a + "." + rest, '.', 2).None?
    ensures NthEnd(rest, '.', 1).Some? ==> NthEnd(a + "." + rest, '.', 2) == Some(NthEnd(rest, '.', 1).value + |a| + 1)
  {
    var s := a + "." + rest;
    if a == [] {
      assert s[0] == '.' && s[1..] == rest;
    } else {
      assert s[0] == a[0] && s[1..] == a[1..] + "." + rest;
      NthEndAfter(a[1..], rest);
    }
  }

  /** The second period of a + "." + b + "." + tail ends after b's period. */
  lemma SecondPeriodEnd(a: string, b: string, tail: string)
    requires '.' !in a && '.' !in b
    ensures NthEnd(a + "." + (b + "." + tail), '.', 2) == Some(|a| + |b| + 2)
  {
    NthEndAfter(b, tail);
    NthEndAfter(a, b + "." + tail);
  }

  lemma NoSecondPeriod(a: string, b: string)
    requires '.' !in a && '.' !in b
    ensures NthEnd(a + "." + b, '.', 2) == None
    ensures NthEnd(a + "." + b, '.', 1) == Some(|a| + 1)
  {
    NthEndAfter(a, b);
  }

  /** What comes after the second period is dropped, and a message with one
      period loses its tail as well. */
  lemma CutDropsTail(a: string, b: string, tail: string)
    requires '.' !in a && '.' !in b
    ensures CutAtSecondPeriod(a + "." + b + "." + tail) == a + "." + b + "."
    ensures CutAtSecondPeriod(a + "." + b) == a + "."
  {
    var s := a + "." + (b + "." + tail);
    SecondPeriodEnd(a, b, tail);
    assert s[..|a| + |b| + 2] == a + "." + b + ".";
    assert a + "." + b + "." + tail == s;
    NoSecondPeriod(a, b);
    assert (a + "." + b)[..|a| + 1] == a + ".";
  }

  /** analyze_diary and its endpoint: a missing key, a badly shaped date and
      an empty reply are all 500s; otherwise the stripped reply is cut at its
      second period. */
  function AnalyzeDiary(hasKey: bool, date: string, reply: Option<string>): (r: Result<string>)
    ensures r.Ok? <==> hasKey && Comfort.DateShapeOk(date) && reply.Some? && reply.value != []
    ensures r.Err? ==> r.error.status == 500
    ensures hasKey && !Comfort.DateShapeOk(date) ==> r == Err(HttpError(500, BadDateFormat))
    ensures r.Ok? ==> StartsWith(Strip(reply.value), r.value) && Count(r.value, '.') <= 2
    ensures r.Ok? ==> r.value == CutAtSecondPeriod(Strip(reply.value))
  {
    if !hasKey then Err(HttpError(500, UpstreamFailed))
    else if !Comfort.DateShapeOk(date) then Err(HttpError(500, BadDateFormat))
    else if reply.None? || reply.value == [] then Err(HttpError(500, UpstreamFailed))
    else Ok(CutAtSecondPeriod(Strip(reply.value)))
  }

  // ---------------------------------------------------------------------
  // Emotion extraction

  const NeutralLabel := "neutral"

  /** extract_emotion: "neutral" without a key, without content or after a
      failed call (reply None); otherwise the reply stripped and lowercased,
      whatever it says. */
  function ExtractEmotion(hasKey: bool, reply: Option<string>): (r: string)
    ensures !hasKey || reply.None? || reply.value == [] ==> r == NeutralLabel
    ensures hasKey && reply.Some? && reply.value != [] ==>
              |r| <= |reply.value| && (r == [] || (!IsSpace(r[0]) && !IsSpace(r[|r| - 1])))
    ensures forall i :: 0 <= i < |r| ==> !('A' <= r[i] <= 'Z')
    ensures hasKey && reply.Some? && reply.value != [] ==> r == Lower(Strip(reply.value))
  {
    if !hasKey || reply.None? || reply.value == [] then NeutralLabel
    else
      var t := Strip(reply.value);
      LowerKeepsEnds(t);
      Lower(t)
  }

  /** The reply is not checked against the twelve emotion labels: any word
      of lowercase letters ("joyful", say) comes back as it is. */
  lemma ExtractedLabelUnchecked(reply: string)
    requires reply != [] && forall i :: 0 <= i < |reply| ==> 'a' <= reply[i] <= 'z'
    ensures ExtractEmotion(true, Some(reply)) == reply
  {
    StripKeepsStripped(reply);
    LowerKeepsLowercase(reply);
  }

  /** A blank reply counts as content and yields the empty label rather than
      "neutral". */
  lemma BlankReplyGivesEmptyLabel(reply: string)
    requires reply != [] && AllSpace(reply)
    ensures ExtractEmotion(true, Some(reply)) == []
  {
    StripEmptyIffBlank(reply);
  }

}

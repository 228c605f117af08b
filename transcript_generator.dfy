/** The parts of transcript generation that are not templates: the HTML
    escaping of user text, the star bar of a rating in the text transcript,
    and the choice of which transcripts `generate` writes. Writing the files
    is left to the caller, which passes in the path each writer returns. */
module TranscriptGenerator {
  import opened Wrappers
  import opened Strings

  // ---------------------------------------------------------------- escaping

  /** The characters `escapeHTML` replaces by an entity. */
  predicate IsSpecial(c: char)
  {
    c == '&' || c == '<' || c == '>' || c == '"' || c == '\''
  }

  /** The characters that may open markup or end an attribute value. */
  predicate IsMarkup(c: char)
  {
    c == '<' || c == '>' || c == '"' || c == '\''
  }

  /** The replacement of one character. */
  function EscapeChar(c: char): (r: string)
    ensures IsSpecial(c) ==> |r| >= 4 && r[0] == '&' && r[|r| - 1] == ';'
    ensures !IsSpecial(c) ==> r == [c]
    ensures forall i :: 0 <= i < |r| ==> !IsMarkup(r[i])
  {
    match c
    case '&' => "&amp;"
    case '<' => "&lt;"
    case '>' => "&gt;"
    case '"' => "&quot;"
    case '\'' => "&#039;"
    case _ => [c]
  }

  /** `escapeHTML`: every special character replaced, in place, by its
      entity, so the result is never shorter than the text. */
  function EscapeHtml(s: string): (r: string)
    ensures |r| >= |s|
  {
    if s == [] then [] else EscapeChar(s[0]) + EscapeHtml(s[1..])
  }

  /** The escaped text never contains a character that opens markup or
      closes an attribute value. */
  lemma {:induction false} EscapeHtmlSafe(s: string)
    ensures forall i :: 0 <= i < |EscapeHtml(s)| ==> !IsMarkup(EscapeHtml(s)[i])
  {
    if s != [] {
      EscapeHtmlSafe(s[1..]);
      var head := EscapeChar(s[0]);
      var tail := EscapeHtml(s[1..]);
      forall i | 0 <= i < |head + tail|
        ensures !IsMarkup((head + tail)[i])
      {
        if i >= |head| {
          assert (head + tail)[i] == tail[i - |head|];
        }
      }
    }
  }

  /** Text without special characters is left as it is. */
  lemma {:induction false} EscapePlainIsIdentity(s: string)
    requires forall i :: 0 <= i < |s| ==> !IsSpecial(s[i])
    ensures EscapeHtml(s) == s
  {
    if s != [] {
      EscapePlainIsIdentity(s[1..]);
      assert s == [s[0]] + s[1..];
    }
  }

  /** Escaping distributes over concatenation: each character is replaced
      where it stands. */
  lemma {:induction false} EscapeAppend(a: string, b: string)
    ensures EscapeHtml(a + b) == EscapeHtml(a) + EscapeHtml(b)
  {
    if a != [] {
      assert (a + b)[0] == a[0] && (a + b)[1..] == a[1..] + b;
      EscapeAppend(a[1..], b);
    } else {
      assert a + b == b;
    }
  }

  /** The escaped length: four more characters per `&`, three per `<` and
      `>`, five per `"` and `'`. */
  lemma {:induction false} EscapedLength(s: string)
    ensures |EscapeHtml(s)| == |s| + 4 * multiset(s)['&'] + 3 * multiset(s)['<'] + 3 * multiset(s)['>']
                                   + 5 * multiset(s)['"'] + 5 * multiset(s)['\'']
  {
    if s != [] {
      EscapedLength(s[1..]);
      HeadCount(s, '&');
      HeadCount(s, '<');
      HeadCount(s, '>');
      HeadCount(s, '"');
      HeadCount(s, '\'');
      assert |EscapeChar(s[0])| == 1 + Extra(s[0]);
    }
  }

  lemma HeadCount(s: string, x: char)
    requires s != []
    ensures multiset(s)[x] == multiset(s[1..])[x] + (if s[0] == x then 1 else 0)
  {
    assert s == [s[0]] + s[1..];
  }

  /** The characters an entity adds over the one it replaces. */
  function Extra(c: char): nat
  {
    (if c == '&' then 4 else 0) + (if c == '<' then 3 else 0) + (if c == '>' then 3 else 0)
    + (if c == '"' then 5 else 0) + (if c == '\'' then 5 else 0)
  }

  /** Reading the entities back: the inverse of `EscapeHtml` on its
      outputs. */
  function Unescape(t: string): string
    decreases |t|
  {
    if t == [] then []
    else if StartsWith(t, "&amp;") then "&" + Unescape(t[5..])
    else if StartsWith(t, "&lt;") then "<" + Unescape(t[4..])
    else if StartsWith(t, "&gt;") then ">" + Unescape(t[4..])
    else if StartsWith(t, "&quot;") then "\"" + Unescape(t[6..])
    else if StartsWith(t, "&#039;") then "'" + Unescape(t[6..])
    else [t[0]] + Unescape(t[1..])
  }

  /** An entity at the head of an escaped text is read back as its
      character, and the rest is read on. */
  lemma UnescapeEntity(e: string, c: char, rest: string)
    requires e == EscapeChar(c)
    ensures Unescape(e + rest) == [c] + Unescape(rest)
  {
    var t := e + rest;
    assert t[..|e|] == e && t[|e|..] == rest;
    if !IsSpecial(c) {
      assert t[0] == c && t[1..] == rest;
      assert !StartsWith(t, "&amp;") && !StartsWith(t, "&lt;") && !StartsWith(t, "&gt;")
          && !StartsWith(t, "&quot;") && !StartsWith(t, "&#039;") by {
        assert c != '&';
      }
    } else if c == '<' {
      assert !StartsWith(t, "&amp;") by { assert t[1] == 'l'; }
    } else if c == '>' {
      assert !StartsWith(t, "&amp;") by { assert t[1] == 'g'; }
      assert !StartsWith(t, "&lt;") by { assert t[1] == 'g'; }
    } else if c == '"' {
      assert !StartsWith(t, "&amp;") by { assert t[1] == 'q'; }
      assert !StartsWith(t, "&lt;") by { assert t[1] == 'q'; }
      assert !StartsWith(t, "&gt;") by { assert t[1] == 'q'; }
    } else if c == '\'' {
      assert !StartsWith(t, "&amp;") by { assert t[1] == '#'; }
      assert !StartsWith(t, "&lt;") by { assert t[1] == '#'; }
      assert !StartsWith(t, "&gt;") by { assert t[1] == '#'; }
      assert !StartsWith(t, "&quot;") by { assert t[1] == '#'; }
    }
  }

  /** Escaping loses nothing: the entities read back give the original
      text, so distinct texts escape to distinct texts. */
  lemma {:induction false} UnescapeEscape(s: string)
    ensures Unescape(EscapeHtml(s)) == s
  {
    if s != [] {
      UnescapeEntity(EscapeChar(s[0]), s[0], EscapeHtml(s[1..]));
      UnescapeEscape(s[1..]);
      assert s == [s[0]] + s[1..];
    }
  }

  lemma EscapeInjective(a: string, b: string)
    requires EscapeHtml(a) == EscapeHtml(b)
    ensures a == b
  {
    UnescapeEscape(a);
    UnescapeEscape(b);
  }

  // ---------------------------------------------------------------- the rating bar

  const FilledStar: char := '★'
  const EmptyStar: char := '☆'

  /** The stars of the feedback section of the text transcript: no section
      for a missing or zero rating; `repeat` throws for a negative count, so a
      rating below zero or above five fails; otherwise `rating` filled stars
      then `5 - rating` empty ones. */
  function RatingBar(rating: Option<int>): (r: Result<Option<string>>)
    ensures rating.None? || rating == Some(0) ==> r == Ok(None)
    ensures r.Err? <==> rating.Some? && (rating.value < 0 || rating.value > 5)
    ensures r.Ok? && r.value.Some? ==>
      && 1 <= rating.value <= 5
      && |r.value.value| == 5
      && (forall i :: 0 <= i < rating.value ==> r.value.value[i] == FilledStar)
      && (forall i :: rating.value <= i < 5 ==> r.value.value[i] == EmptyStar)
  {
    match rating
    case None => Ok(None)
    case Some(n) =>
      if n == 0 then Ok(None)
      else if n < 0 || 5 - n < 0 then Err("RangeError: Invalid count value")
      else Ok(Some(Repeat(FilledStar, n) + Repeat(EmptyStar, 5 - n)))
  }

  /** Every rating from one to five has its bar, with exactly `rating` filled
      stars. */
  lemma RatedBarCounts(n: int)
    requires 1 <= n <= 5
    ensures RatingBar(Some(n)).Ok? && RatingBar(Some(n)).value.Some?
    ensures multiset(RatingBar(Some(n)).value.value)[FilledStar] == n
    ensures multiset(RatingBar(Some(n)).value.value)[EmptyStar] == 5 - n
  {
    RepeatCount(FilledStar, n, EmptyStar);
    RepeatCount(EmptyStar, 5 - n, FilledStar);
  }

  lemma {:induction false} RepeatCount(c: char, n: nat, d: char)
    requires c != d
    ensures multiset(Repeat(c, n))[c] == n && multiset(Repeat(c, n))[d] == 0
  {
    if n > 0 {
      RepeatCount(c, n - 1, d);
      assert multiset(Repeat(c, n)) == multiset{c} + multiset(Repeat(c, n - 1));
    }
  }

  // ---------------------------------------------------------------- dispatch

  /** `generate`: the HTML transcript for `html` (also when no format is
      given) and `both`, the text transcript for `txt` and `both`, the HTML
      one first; any other format writes nothing. */
  method Generate(formatType: Option<string>, htmlPath: string, txtPath: string) returns (files: seq<string>)
    ensures formatType.None? || formatType == Some("html") ==> files == [htmlPath]
    ensures formatType == Some("txt") ==> files == [txtPath]
    ensures formatType == Some("both") ==> files == [htmlPath, txtPath]
    ensures formatType.Some? && formatType.value !in {"html", "txt", "both"} ==> files == []
  {
    var fmt := formatType.GetOr("html");
    files := [];
    if fmt == "html" || fmt == "both" {
      files := files + [htmlPath];
    }
    if fmt == "txt" || fmt == "both" {
      files := files + [txtPath];
    }
  }
}

/**
  ETag and If-Match.  The tag names a version number, and a precondition is read back as
  that number: the comparison is of integers, so a weak prefix is not held against it.
*/
module Etag {
  import opened Common
  import opened Numerals

  const WEAK_PREFIX := "W/"
  const ANY_VERSION := "*"

  predicate IsQuote(c: char) {
    c == '"'
  }

  function EtagFor(version: int): string {
    WEAK_PREFIX + "\"" + Text(version) + "\""
  }

  function WithoutWeakPrefix(s: string): string {
    if WEAK_PREFIX <= s then s[|WEAK_PREFIX|..] else s
  }

  function TagVersion(value: string): Option<int> {
    ParseInt(Strip(WithoutWeakPrefix(Strip(value, IsSpace)), IsQuote))
  }

  function Quoted(n: int): string {
    "\"" + Text(n) + "\""
  }

  lemma StripQuotes(s: string)
    requires s != "" && !IsQuote(s[0]) && !IsQuote(s[|s| - 1])
    ensures Strip("\"" + s + "\"", IsQuote) == s
  {
    var quoted := "\"" + s + "\"";
    assert quoted[1..] == s + "\"";
    assert StripLeft(s + "\"", IsQuote) == s + "\"";
    assert StripLeft(quoted, IsQuote) == s + "\"";
    assert (s + "\"")[..|s|] == s;
    assert StripRight(s, IsQuote) == s;
  }

  lemma TextHasNoQuote(n: int)
    ensures Text(n) != "" && forall c :: c in Text(n) ==> IsDigit(c) || c == '-'
  {
    DecimalIsDigits(if n < 0 then -n else n);
  }

  lemma QuotedIsRead(n: int)
    ensures ParseInt(Strip(Quoted(n), IsQuote)) == Some(n)
  {
    TextHasNoQuote(n);
    TextRoundTrip(n);
    var t := Text(n);
    assert t[0] in t && t[|t| - 1] in t;
    StripQuotes(t);
  }

  lemma NothingToTrim(n: int)
    ensures Strip(Quoted(n), IsSpace) == Quoted(n) && WithoutWeakPrefix(Quoted(n)) == Quoted(n)
    ensures Strip(EtagFor(n), IsSpace) == EtagFor(n) && WithoutWeakPrefix(EtagFor(n)) == Quoted(n)
  {
    var strong, weak := Quoted(n), EtagFor(n);
    assert strong[0] == '"' && strong[|strong| - 1] == '"';
    StripNothing(strong, IsSpace);
    assert weak == WEAK_PREFIX + strong;
    assert weak[0] == WEAK_PREFIX[0] && weak[|weak| - 1] == '"';
    StripNothing(weak, IsSpace);
  }

  /** The version of every tag this API serves is the version it was served for; the strong form reads the same. */
  lemma EtagRoundTrip(n: int)
    ensures TagVersion(EtagFor(n)) == Some(n)
    ensures TagVersion(Quoted(n)) == Some(n)
  {
    NothingToTrim(n);
    QuotedIsRead(n);
  }

  /** The candidate is pared down step by step. */
  method ParseEtag(value: string) returns (version: Option<int>)
    ensures version == TagVersion(value)
    ensures forall n :: value == EtagFor(n) ==> version == Some(n)
  {
    var candidate := Strip(value, IsSpace);
    if WEAK_PREFIX <= candidate {
      candidate := candidate[|WEAK_PREFIX|..];
    }
    candidate := Strip(candidate, IsQuote);
    version := ParseInt(candidate);
    forall n | value == EtagFor(n)
      ensures version == Some(n)
    {
      EtagRoundTrip(n);
    }
  }

  datatype Precondition = Missing | AnyVersion | Unreadable | Version(version: int)

  function RequireIfMatch(header: Option<string>): Precondition {
    if header.None? then Missing
    else if Strip(header.value, IsSpace) == ANY_VERSION then AnyVersion
    else
      var version := TagVersion(header.value);
      if version.None? then Unreadable else Version(version.value)
  }

  /** Sending back the tag that was served asks for exactly that version. */
  lemma ServedTagIsAccepted(n: int)
    ensures RequireIfMatch(Some(EtagFor(n))) == Version(n)
  {
    EtagRoundTrip(n);
    NothingToTrim(n);
    assert EtagFor(n)[0] == 'W';
  }

  /** No header, an unreadable one, and the star are told apart from every version. */
  lemma OtherHeaders()
    ensures RequireIfMatch(None) == Missing
    ensures RequireIfMatch(Some("*")) == AnyVersion
    ensures RequireIfMatch(Some("")) == Unreadable
  {
    StripNothing("*", IsSpace);
    assert Strip("", IsSpace) == "" && WithoutWeakPrefix("") == "" && Strip("", IsQuote) == "";
  }

  /** What a tag looks like. */
  lemma TagText(n: int)
    ensures EtagFor(n) == "W/\"" + Text(n) + "\""
    ensures EtagFor(120) == "W/\"120\"" && EtagFor(-7) == "W/\"-7\""
  {
    assert Decimal(120) == "120" && Decimal(7) == "7";
  }
}

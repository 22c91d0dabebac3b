/**
 * `generate_search_links`: LinkedIn, Indeed and Google Jobs search URLs with the
 * query and the location percent-encoded as `urllib.parse.quote` does: the UTF-8
 * bytes of the text, unreserved characters (section 2.3 of RFC 3986) and '/'
 * kept, every other byte written as '%' and two upper-case hex digits (section
 * 2.1 of RFC 3986).
 */
module SearchLinks {
  import opened Wrappers
  import opened Text

  type Byte = b: int | 0 <= b < 256

  /** The UTF-8 encoding of one Unicode scalar value. */
  function Utf8Char(c: char): (r: seq<Byte>)
    ensures 1 <= |r| <= 4
    ensures (c as int < 0x80) <==> |r| == 1
    ensures |r| == 1 ==> r[0] == c as int
  {
    var cp := c as int;
    if cp < 0x80 then [cp]
    else if cp < 0x800 then [0xC0 + cp / 64, 0x80 + cp % 64]
    else if cp < 0x10000 then [0xE0 + cp / 4096, 0x80 + (cp / 64) % 64, 0x80 + cp % 64]
    else [0xF0 + cp / 262144, 0x80 + (cp / 4096) % 64, 0x80 + (cp / 64) % 64, 0x80 + cp % 64]
  }

  /** The UTF-8 encoding of a string. */
  function Utf8(s: string): seq<Byte> {
    if s == [] then [] else Utf8Char(s[0]) + Utf8(s[1..])
  }

  /** ASCII text encodes to its own code points. */
  lemma {:induction false} Utf8Ascii(s: string)
    requires forall i :: 0 <= i < |s| ==> s[i] as int < 0x80
    ensures |Utf8(s)| == |s| && forall i :: 0 <= i < |s| ==> Utf8(s)[i] == s[i] as int
  {
    if s != [] {
      Utf8Ascii(s[1..]);
    }
  }

  /** Bytes `quote` leaves alone: ASCII letters, digits, "_.-~", and the safe character '/'. */
  predicate Kept(b: Byte) {
    ('A' as int <= b <= 'Z' as int) || ('a' as int <= b <= 'z' as int) || ('0' as int <= b <= '9' as int)
    || b == '_' as int || b == '.' as int || b == '-' as int || b == '~' as int || b == '/' as int
  }

  function HexDigit(d: nat): (c: char)
    requires d < 16
    ensures IsHex(c)
  {
    if d < 10 then ('0' as int + d) as char else ('A' as int + d - 10) as char
  }

  predicate IsHex(c: char) {
    IsDigit(c) || ('A' <= c <= 'F') || ('a' <= c <= 'f')
  }

  function HexValue(c: char): (d: nat)
    requires IsHex(c)
    ensures d < 16
  {
    if IsDigit(c) then c as int - '0' as int
    else if 'A' <= c <= 'F' then c as int - 'A' as int + 10
    else c as int - 'a' as int + 10
  }

  lemma HexRoundTrip(d: nat)
    requires d < 16
    ensures HexValue(HexDigit(d)) == d
  {
  }

  /** One byte, kept or escaped. */
  function QuoteByte(b: Byte): (r: string)
    ensures Kept(b) ==> r == [b as char]
    ensures !Kept(b) ==> |r| == 3 && r[0] == '%' && IsHex(r[1]) && IsHex(r[2])
  {
    if Kept(b) then [b as char] else ['%', HexDigit(b / 16), HexDigit(b % 16)]
  }

  function QuoteBytes(bs: seq<Byte>): string {
    if bs == [] then [] else QuoteByte(bs[0]) + QuoteBytes(bs[1..])
  }

  /** `urllib.parse.quote(s)`, whose default safe set is "/". */
  function Quote(s: string): string {
    QuoteBytes(Utf8(s))
  }

  /** A character that may appear in quoted text. */
  predicate Quoted(c: char) {
    c == '%' || IsHex(c) || (c as int < 256 && Kept(c as int))
  }

  /** Every character of the output is kept, a '%', or a hex digit: never a space, '&', '?' or '#'. */
  lemma {:induction false} QuoteBytesAlphabet(bs: seq<Byte>)
    ensures forall c :: c in QuoteBytes(bs) ==> Quoted(c)
  {
    if bs != [] {
      QuoteBytesAlphabet(bs[1..]);
      var head := QuoteByte(bs[0]);
      forall c | c in head ensures Quoted(c) {
        if !Kept(bs[0]) {
          assert c == head[0] || c == head[1] || c == head[2];
        }
      }
    }
  }

  /** Quoted text has no character that ends or starts a URL component. */
  lemma QuoteSeparatorFree(s: string)
    ensures ' ' !in Quote(s) && '&' !in Quote(s) && '?' !in Quote(s) && '#' !in Quote(s) && '=' !in Quote(s)
  {
    QuoteBytesAlphabet(Utf8(s));
  }

  /** Percent-decoding to bytes (`unquote_to_bytes`); `None` for a character outside ASCII. */
  function UnquoteBytes(t: string): Option<seq<Byte>> {
    if t == [] then Some([])
    else if t[0] == '%' && |t| >= 3 && IsHex(t[1]) && IsHex(t[2]) then
      match UnquoteBytes(t[3..])
      case None => None
      case Some(rest) => Some([16 * HexValue(t[1]) + HexValue(t[2])] + rest)
    else if t[0] as int < 128 then
      match UnquoteBytes(t[1..])
      case None => None
      case Some(rest) => Some([t[0] as int] + rest)
    else None
  }

  /** Decoding the quoted bytes gives the bytes back. */
  lemma {:induction false} UnquoteQuoteBytes(bs: seq<Byte>)
    ensures UnquoteBytes(QuoteBytes(bs)) == Some(bs)
  {
    if bs != [] {
      var b := bs[0];
      var t := QuoteBytes(bs);
      UnquoteQuoteBytes(bs[1..]);
      if Kept(b) {
        assert t[1..] == QuoteBytes(bs[1..]);
      } else {
        HexRoundTrip(b / 16);
        HexRoundTrip(b % 16);
        assert t[1] == HexDigit(b / 16) && t[2] == HexDigit(b % 16);
        assert 16 * (b / 16) + b % 16 == b;
        assert t[3..] == QuoteBytes(bs[1..]);
        assert t[0] == '%' && |t| >= 3 && IsHex(t[1]) && IsHex(t[2]);
        assert UnquoteBytes(t) == Some([16 * HexValue(t[1]) + HexValue(t[2])] + bs[1..]);
      }
      assert [b] + bs[1..] == bs;
    }
  }

  /** Decoding `quote(s)` gives the UTF-8 bytes of `s`. */
  lemma UnquoteQuote(s: string)
    ensures UnquoteBytes(Quote(s)) == Some(Utf8(s))
  {
    UnquoteQuoteBytes(Utf8(s));
  }

  /** Text made of kept characters is not changed by quoting. */
  lemma {:induction false} QuoteKeptText(s: string)
    requires forall i :: 0 <= i < |s| ==> s[i] as int < 0x80 && Kept(s[i] as int)
    ensures Quote(s) == s
  {
    if s != [] {
      QuoteKeptText(s[1..]);
    }
  }

  const LinkedInPrefix: string := "https://www.linkedin.com/jobs/search/?keywords="
  const IndeedPrefix: string := "https://www.indeed.com/jobs?q="
  const GooglePrefix: string := "https://www.google.com/search?q="

  /** `generate_search_links(query, location)`. */
  function GenerateSearchLinks(query: string, location: string := ""): (links: map<string, string>)
    ensures links.Keys == {"linkedin", "indeed", "google_jobs"}
  {
    var q := Quote(query);
    var l := Quote(location);
    map[
      "linkedin" := LinkedInPrefix + q + "&location=" + l,
      "indeed" := IndeedPrefix + q + "&l=" + l,
      "google_jobs" := GooglePrefix + q + "+jobs+in+" + l + "&ibp=htl;jobs"]
  }

  /** Each URL holds the encoded query and location in its slots, and the query ends at the first '&' after its prefix. */
  lemma SearchLinksSlots(query: string, location: string)
    ensures var links := GenerateSearchLinks(query, location);
      var q := Quote(query);
      var l := Quote(location);
      && links["linkedin"] == LinkedInPrefix + q + "&location=" + l
      && links["indeed"] == IndeedPrefix + q + "&l=" + l
      && links["google_jobs"] == GooglePrefix + q + "+jobs+in+" + l + "&ibp=htl;jobs"
      && IndexOf(links["linkedin"], "&", |LinkedInPrefix|) == |LinkedInPrefix| + |q|
      && IndexOf(links["indeed"], "&", |IndeedPrefix|) == |IndeedPrefix| + |q|
  {
    var q := Quote(query);
    var l := Quote(location);
    QuoteSeparatorFree(query);
    FirstAmp(LinkedInPrefix, q, "&location=" + l);
    FirstAmp(IndeedPrefix, q, "&l=" + l);
    assert LinkedInPrefix + q + "&location=" + l == LinkedInPrefix + q + ("&location=" + l);
    assert IndeedPrefix + q + "&l=" + l == IndeedPrefix + q + ("&l=" + l);
  }

  /** In `p + v + rest`, where `v` has no '&' and `rest` starts with one, the first '&' from `|p|` is at `|p| + |v|`. */
  lemma FirstAmp(p: string, v: string, rest: string)
    requires '&' !in v && rest != [] && rest[0] == '&'
    ensures IndexOf(p + v + rest, "&", |p|) == |p| + |v|
  {
    var s := p + v + rest;
    assert s[|p| + |v|..|p| + |v| + 1] == "&";
    forall i | |p| <= i < |p| + |v| ensures !OccursAt(s, "&", i) {
      assert s[i] == v[i - |p|];
      assert s[i..i + 1] == [s[i]];
    }
    IndexOfFirst(s, "&", |p|, |p| + |v|);
  }

  /** An empty location gives an empty location parameter. */
  lemma EmptyLocation(query: string)
    ensures GenerateSearchLinks(query)["indeed"] == IndeedPrefix + Quote(query) + "&l="
  {
  }
}

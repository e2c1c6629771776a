/**
 * The name under which a downloaded response is saved: the last path segment
 * of the href, overridden by the `filename="..."` parameter of a
 * `content-disposition` response header (the quoted-string form of section
 * 4.1 of RFC 6266, taken verbatim: no `filename*`, no unescaping, no decoding).
 */
module Filenames {
  import opened Wrappers

  /** `s.lastIndexOf(c)`: the last position holding `c`, or -1. */
  function LastIndexOf(s: string, c: char): (i: int)
    ensures -1 <= i < |s|
    ensures i >= 0 ==> s[i] == c
    ensures forall k :: i < k < |s| ==> s[k] != c
  {
    if s == [] then -1
    else if s[|s| - 1] == c then |s| - 1
    else LastIndexOf(s[..|s| - 1], c)
  }

  /**
   * `href.substring(href.lastIndexOf("/") + 1)`: the longest suffix free of
   * '/', which is the whole href when it has no '/', query string included.
   */
  function DefaultFileName(href: string): (name: string)
    ensures |name| <= |href| && name == href[|href| - |name|..]
    ensures '/' !in name
    ensures |name| < |href| ==> href[|href| - |name| - 1] == '/'
  {
    href[LastIndexOf(href, '/') + 1..]
  }

  /** A path ending in a segment without '/' yields exactly that segment. */
  lemma {:induction false} LastSegmentOfPath(dir: string, segment: string)
    requires '/' !in segment
    ensures DefaultFileName(dir + "/" + segment) == segment
  {
    var href := dir + "/" + segment;
    var name := DefaultFileName(href);
    assert href[|href| - |segment| - 1] == '/';
    assert href[|href| - |segment|..] == segment;
  }

  /** The literal that opens the pattern `/filename="(.+)"/`. */
  const Opening: string := "filename=\""

  /** The characters a JavaScript `.` does not match. */
  predicate IsLineTerminator(c: char) {
    c == '\n' || c == '\r' || c == '\U{2028}' || c == '\U{2029}'
  }

  /**
   * The pattern matches at `start` with its closing quote at `close`: the
   * opening literal, at least one non-terminator character, then '"'.
   */
  ghost predicate MatchAt(cd: string, start: int, close: int) {
    0 <= start && start + |Opening| < close < |cd| &&
    cd[start..start + |Opening|] == Opening &&
    cd[close] == '"' &&
    forall k :: start + |Opening| <= k < close ==> !IsLineTerminator(cd[k])
  }

  /** A match as found by the regular expression engine: where it starts and where its closing quote is. */
  datatype Span = Span(start: nat, close: nat)

  /** The first line terminator at or after `from`, or the end of `cd`. */
  function LineEnd(cd: string, from: nat): (e: nat)
    requires from <= |cd|
    ensures from <= e <= |cd|
    ensures forall k :: from <= k < e ==> !IsLineTerminator(cd[k])
    ensures e < |cd| ==> IsLineTerminator(cd[e])
    decreases |cd| - from
  {
    if from == |cd| || IsLineTerminator(cd[from]) then from else LineEnd(cd, from + 1)
  }

  /** The last '"' in `cd[lo..hi]`, if any. */
  function LastQuote(cd: string, lo: nat, hi: nat): (j: Option<nat>)
    requires lo <= hi <= |cd|
    ensures j.Some? ==> lo <= j.value < hi && cd[j.value] == '"'
    ensures j.Some? ==> forall k :: j.value < k < hi ==> cd[k] != '"'
    ensures j.None? ==> forall k :: lo <= k < hi ==> cd[k] != '"'
    decreases hi - lo
  {
    if lo == hi then None
    else if cd[hi - 1] == '"' then Some(hi - 1)
    else LastQuote(cd, lo, hi - 1)
  }

  /**
   * At a start holding the opening literal, the pattern closes exactly at the
   * quotes between the first body character and the line's end, so the last
   * such quote is the greedy close.
   */
  lemma {:induction false} MatchAtStart(cd: string, from: nat)
    requires from + |Opening| < |cd| && cd[from..from + |Opening|] == Opening
    ensures var body := from + |Opening|;
            var q := LastQuote(cd, body, LineEnd(cd, body));
            && (q.Some? && q.value > body ==> MatchAt(cd, from, q.value))
            && (forall c :: MatchAt(cd, from, c) ==> q.Some? && body < c <= q.value)
  {
    var body := from + |Opening|;
    var e := LineEnd(cd, body);
    var q := LastQuote(cd, body, e);
    forall c | MatchAt(cd, from, c) ensures q.Some? && body < c <= q.value {
      assert c != e;
    }
  }

  /**
   * The regular expression engine trying start positions from `from` on: the
   * leftmost start at which the pattern matches, with the greedy `.+` running
   * to the last quote on that line.
   */
  function MatchFrom(cd: string, from: nat): (m: Option<Span>)
    requires from <= |cd|
    ensures m.Some? ==> from <= m.value.start && MatchAt(cd, m.value.start, m.value.close)
    ensures m.Some? ==> forall s, c :: from <= s < m.value.start ==> !MatchAt(cd, s, c)
    ensures m.Some? ==> forall c :: m.value.close < c ==> !MatchAt(cd, m.value.start, c)
    ensures m.None? ==> forall s, c :: from <= s ==> !MatchAt(cd, s, c)
    decreases |cd| - from
  {
    if from + |Opening| >= |cd| then None
    else if cd[from..from + |Opening|] == Opening then
      var body := from + |Opening|;
      var q := LastQuote(cd, body, LineEnd(cd, body));
      MatchAtStart(cd, from);
      if q.Some? && q.value > body then Some(Span(from, q.value))
      else MatchFrom(cd, from + 1)
    else MatchFrom(cd, from + 1)
  }

  /** `cd.match(/filename="(.+)"/)`: the first capture group, or None where the match is null. */
  function Capture(cd: string): (name: Option<string>)
    ensures name.None? <==> forall s, c :: !MatchAt(cd, s, c)
    ensures name.Some? ==> name.value != ""
    ensures name.Some? ==>
              exists s, c :: MatchAt(cd, s, c) && name.value == cd[s + |Opening|..c] &&
                (forall s', c' :: s' < s ==> !MatchAt(cd, s', c')) &&
                (forall c' :: c < c' ==> !MatchAt(cd, s, c'))
  {
    match MatchFrom(cd, 0)
    case None => None
    case Some(m) =>
      assert forall s', c' :: s' < m.start ==> !MatchAt(cd, s', c') by {
        forall s', c' | s' < m.start ensures !MatchAt(cd, s', c') {
          if s' < 0 {
          } else {
            assert 0 <= s' < m.start;
          }
        }
      }
      Some(cd[m.start + |Opening|..m.close])
  }

  const ContentDispositionKey: string := "content-disposition"

  /**
   * The name handed to the synthetic link's `download` attribute, or None
   * when a non-empty header does not match and `fileNameMatch.length` throws
   * on null. The `length === 2` test that follows always holds on a match,
   * whose array has the whole match and one group.
   */
  function FileName(href: string, headers: map<string, string>): (r: Option<string>)
    ensures ContentDispositionKey !in headers || headers[ContentDispositionKey] == "" ==>
              r == Some(DefaultFileName(href))
    ensures ContentDispositionKey in headers && headers[ContentDispositionKey] != "" ==>
              r == Capture(headers[ContentDispositionKey])
  {
    if ContentDispositionKey in headers && headers[ContentDispositionKey] != "" then
      Capture(headers[ContentDispositionKey])
    else Some(DefaultFileName(href))
  }

  const AttachmentPrefix: string := "attachment; "

  /** The header a server sends to name an attachment with a quoted filename. */
  function AttachmentHeader(name: string): (cd: string)
    ensures |cd| == |AttachmentPrefix| + |Opening| + |name| + 1
  {
    AttachmentPrefix + Opening + name + "\""
  }

  /** The attachment header has a match from its parameter to its final quote, enclosing the name. */
  lemma {:induction false} AttachmentHeaderMatchAt(name: string)
    requires name != ""
    requires forall k :: 0 <= k < |name| ==> !IsLineTerminator(name[k])
    ensures var cd := AttachmentHeader(name);
            && MatchAt(cd, |AttachmentPrefix|, |cd| - 1)
            && cd[|AttachmentPrefix| + |Opening|..|cd| - 1] == name
  {
    var cd := AttachmentHeader(name);
    var body, close := |AttachmentPrefix| + |Opening|, |cd| - 1;
    assert cd[|AttachmentPrefix|..body] == Opening;
    assert cd[body..close] == name;
    forall k | body <= k < close ensures !IsLineTerminator(cd[k]) {
      assert cd[k] == cd[body..close][k - body];
    }
  }

  /** No match can start inside the prefix: it holds no 'f'. */
  lemma {:induction false} NoMatchInAttachmentPrefix(name: string)
    ensures forall s, c :: 0 <= s < |AttachmentPrefix| ==> !MatchAt(AttachmentHeader(name), s, c)
  {
    var cd := AttachmentHeader(name);
    assert cd[..|AttachmentPrefix|] == AttachmentPrefix;
    forall s, c | 0 <= s < |AttachmentPrefix| ensures !MatchAt(cd, s, c) {
      assert cd[s] == AttachmentPrefix[s];
      assert AttachmentPrefix[s] != 'f';
      assert cd[s..s + |Opening|][0] == cd[s];
    }
  }

  /** In an attachment header, the match starts at the parameter and closes at the final quote. */
  lemma {:induction false} AttachmentHeaderMatch(name: string)
    requires name != ""
    requires forall k :: 0 <= k < |name| ==> !IsLineTerminator(name[k])
    ensures MatchFrom(AttachmentHeader(name), 0) == Some(Span(|AttachmentPrefix|, |AttachmentHeader(name)| - 1))
    ensures AttachmentHeader(name)[|AttachmentPrefix| + |Opening|..|AttachmentHeader(name)| - 1] == name
  {
    var cd := AttachmentHeader(name);
    AttachmentHeaderMatchAt(name);
    NoMatchInAttachmentPrefix(name);
    var m := MatchFrom(cd, 0);
    assert m.Some?;
    assert m.value.start == |AttachmentPrefix|;
  }

  /**
   * Round trip: a quoted filename without line breaks comes back unchanged,
   * whatever the href; quotes inside it are kept, since the greedy group runs
   * to the last quote.
   */
  lemma {:induction false} AttachmentNameRoundTrip(href: string, name: string)
    requires name != ""
    requires forall k :: 0 <= k < |name| ==> !IsLineTerminator(name[k])
    ensures FileName(href, map[ContentDispositionKey := AttachmentHeader(name)]) == Some(name)
  {
    AttachmentHeaderMatch(name);
  }
}

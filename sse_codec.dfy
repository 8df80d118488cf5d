/** The line decoder of the generation service's event stream
    (`parseSSEData` in src/services/soraApi.ts): one `data: <json>` line in,
    at most one event out, no memory between lines, never an exception. */
module SseCodec {
  import opened Wrappers
  import opened Text

  /** `choices[0].delta` of an event payload; the two string channels. */
  datatype Delta = Delta(reasoningContent: Option<string>, content: Option<string>)

  /** A payload that parsed as JSON; `delta` is `data.choices?.[0]?.delta`
      (`None` when any step of that path is missing). */
  datatype Payload = Payload(delta: Option<Delta>)

  /** `JSON.parse`, which the model does not implement: `None` is a parse
      failure (the exception the decoder swallows). */
  type Decoder = string -> Option<Payload>

  /** The decoder's result object: `{}`, `{ isDone }`, `{ progress?, message }`
      or `{ videoUrl }`. */
  datatype Parsed =
    | NoEvent
    | DoneMarker
    | Message(progress: Option<nat>, text: string)
    | VideoUrl(url: string)

  const DataPrefix := "data: "
  const DoneLine := "data: [DONE]"
  const SrcOpen := "src='"

  // ---------------------------------------------------------------------
  // `/(\d+)%/`: the leftmost position where a digit run is followed by `%`.

  /** End of the digit run that starts at `i` (`i` itself when `s[i]` is not
      a digit). */
  function RunEnd(s: string, i: nat): (j: nat)
    requires i <= |s|
    ensures i <= j <= |s|
    ensures forall k :: i <= k < j ==> IsDigit(s[k])
    ensures j == |s| || !IsDigit(s[j])
    decreases |s| - i
  {
    if i < |s| && IsDigit(s[i]) then RunEnd(s, i + 1) else i
  }

  /** The progress pattern matches starting at `i`. */
  predicate PercentAt(s: string, i: nat) {
    i < |s| && IsDigit(s[i]) && RunEnd(s, i) < |s| && s[RunEnd(s, i)] == '%'
  }

  /** The leftmost match position at or after `i`, as a regular-expression
      search finds it. */
  function FirstPercentFrom(s: string, i: nat): (r: Option<nat>)
    requires i <= |s|
    ensures r.Some? ==> i <= r.value < |s| && PercentAt(s, r.value)
    ensures r.Some? ==> forall k :: i <= k < r.value ==> !PercentAt(s, k)
    ensures r.None? ==> forall k :: i <= k < |s| ==> !PercentAt(s, k)
    decreases |s| - i
  {
    if i == |s| then None
    else if PercentAt(s, i) then Some(i)
    else FirstPercentFrom(s, i + 1)
  }

  /** `parseInt(match[1], 10)` of the first `\d+%` in `s`, if any. */
  function ProgressIn(s: string): Option<nat>
  {
    match FirstPercentFrom(s, 0)
    case None => None
    case Some(i) =>
      assert AllDigits(s[i..RunEnd(s, i)]);
      Some(ParseDecimal(s[i..RunEnd(s, i)]))
  }

  /** The leftmost match starts a maximal digit run: `a12%` reads 12, not 2. */
  lemma FirstPercentIsRunStart(s: string)
    ensures var r := FirstPercentFrom(s, 0);
      r.Some? ==> r.value == 0 || !IsDigit(s[r.value - 1])
  {
    var r := FirstPercentFrom(s, 0);
    if r.Some? && r.value > 0 && IsDigit(s[r.value - 1]) {
      assert RunEnd(s, r.value - 1) == RunEnd(s, r.value);
      assert PercentAt(s, r.value - 1);
      assert false;
    }
  }

  /** A run of digits from `i` to `j` followed by a non-digit ends at `j`. */
  lemma {:induction false} RunEndOfDigits(s: string, i: nat, j: nat)
    requires i <= j < |s|
    requires forall k :: i <= k < j ==> IsDigit(s[k])
    requires !IsDigit(s[j])
    ensures RunEnd(s, i) == j
    decreases j - i
  {
    if i < j {
      RunEndOfDigits(s, i + 1, j);
    }
  }

  /** Round trip with the rendering side: a percentage written after text
      that holds no digit is read back exactly. */
  lemma ProgressOfRendered(p: string, n: nat, rest: string)
    requires forall k :: 0 <= k < |p| ==> !IsDigit(p[k])
    ensures ProgressIn(p + NatToDecimal(n) + "%" + rest) == Some(n)
  {
    var d := NatToDecimal(n);
    var s := p + d + "%" + rest;
    var e := |p| + |d|;
    assert s[e] == '%';
    assert forall k :: |p| <= k < e ==> s[k] == d[k - |p|];
    RunEndOfDigits(s, |p|, e);
    assert PercentAt(s, |p|);
    forall k | 0 <= k < |p| ensures !PercentAt(s, k) {
      assert s[k] == p[k];
    }
    var r := FirstPercentFrom(s, 0);
    assert r == Some(|p|);
    assert s[|p|..e] == d;
    ParseNatToDecimal(n);
  }

  // ---------------------------------------------------------------------
  // `/src='([^']+)'/`: the leftmost `src='` followed by a non-empty,
  // quote-free text and a closing quote.

  /** Position of the first quote at or after `j`, `|s|` when there is none. */
  function QuoteFrom(s: string, j: nat): (q: nat)
    requires j <= |s|
    ensures j <= q <= |s|
    ensures forall k :: j <= k < q ==> s[k] != '\''
    ensures q == |s| || s[q] == '\''
    decreases |s| - j
  {
    if j == |s| || s[j] == '\'' then j else QuoteFrom(s, j + 1)
  }

  /** The URL pattern matches starting at `i`. */
  predicate UrlAt(s: string, i: nat) {
    && i + |SrcOpen| <= |s| && s[i..i + |SrcOpen|] == SrcOpen
    && i + |SrcOpen| < QuoteFrom(s, i + |SrcOpen|) < |s|
  }

  function FirstUrlFrom(s: string, i: nat): (r: Option<nat>)
    requires i <= |s|
    ensures r.Some? ==> i <= r.value < |s| && UrlAt(s, r.value)
    ensures r.Some? ==> forall k :: i <= k < r.value ==> !UrlAt(s, k)
    ensures r.None? ==> forall k :: i <= k < |s| ==> !UrlAt(s, k)
    decreases |s| - i
  {
    if i == |s| then None
    else if UrlAt(s, i) then Some(i)
    else FirstUrlFrom(s, i + 1)
  }

  /** `u` stands between `src='` at `i` and a closing quote. */
  predicate FramedAt(s: string, i: nat, u: string) {
    && i + |SrcOpen| + |u| < |s|
    && s[i..i + |SrcOpen|] == SrcOpen
    && s[i + |SrcOpen|..i + |SrcOpen| + |u|] == u
    && s[i + |SrcOpen| + |u|] == '\''
  }

  /** The captured group of the first URL match. */
  function UrlIn(s: string): (r: Option<string>)
    ensures r.Some? ==> r.value != [] && '\'' !in r.value
    ensures r.Some? ==> exists i: nat :: FramedAt(s, i, r.value) && forall k: nat :: k < i ==> !UrlAt(s, k)
    ensures r.None? ==> forall i :: 0 <= i < |s| ==> !UrlAt(s, i)
  {
    match FirstUrlFrom(s, 0)
    case None => None
    case Some(i) =>
      var u := s[i + |SrcOpen|..QuoteFrom(s, i + |SrcOpen|)];
      assert FramedAt(s, i, u);
      Some(u)
  }

  /** Round trip with the rendering side: a tag `src='u'` after text without
      quotes yields `u`, for any non-empty quote-free `u`. */
  lemma UrlOfRenderedTag(p: string, u: string, rest: string)
    requires '\'' !in p && u != [] && '\'' !in u
    ensures UrlIn(p + SrcOpen + u + "'" + rest) == Some(u)
  {
    var s := p + SrcOpen + u + "'" + rest;
    var j := |p| + |SrcOpen|;
    assert s[|p|..j] == SrcOpen;
    assert forall k :: j <= k < j + |u| ==> s[k] == u[k - j];
    assert s[j + |u|] == '\'';
    assert QuoteFrom(s, j) == j + |u| by {
      QuoteFromSkips(s, j, j + |u|);
    }
    assert UrlAt(s, |p|);
    forall k | 0 <= k < |p| ensures !UrlAt(s, k) {
      assert s[k + 4] != '\'' by {
        if k + 4 < |p| {
          assert s[k + 4] == p[k + 4];
        } else {
          assert s[k + 4] == SrcOpen[k + 4 - |p|];
        }
      }
      assert s[k..k + |SrcOpen|][4] == s[k + 4];
    }
    assert FirstUrlFrom(s, 0) == Some(|p|);
    assert s[j..j + |u|] == u;
  }

  /** A stretch without quotes ending in a quote is skipped in one go. */
  lemma {:induction false} QuoteFromSkips(s: string, j: nat, q: nat)
    requires j <= q < |s| && s[q] == '\''
    requires forall k :: j <= k < q ==> s[k] != '\''
    ensures QuoteFrom(s, j) == q
    decreases q - j
  {
    if j < q {
      QuoteFromSkips(s, j + 1, q);
    }
  }

  // ---------------------------------------------------------------------
  // The line decoder.

  /** `parseSSEData(line)`. */
  function ParseSseData(line: string, decode: Decoder): (r: Parsed)
    ensures r == DoneMarker <==> line == DoneLine
    ensures !StartsWith(line, DataPrefix) ==> r == NoEvent
    ensures r.VideoUrl? ==> r.url != [] && '\'' !in r.url
  {
    if line == DoneLine then DoneMarker
    else if !StartsWith(line, DataPrefix) then NoEvent
    else match decode(line[|DataPrefix|..])
      case None => NoEvent
      case Some(payload) =>
        match payload.delta
        case None => NoEvent
        case Some(d) =>
          if Truthy(d.reasoningContent) then
            Message(ProgressIn(d.reasoningContent.value), Trim(d.reasoningContent.value))
          else if Truthy(d.content) then
            match UrlIn(d.content.value)
            case Some(u) => VideoUrl(u)
            case None => NoEvent
          else NoEvent
  }

  /** The terminal sentinel yields the done marker and nothing else, whatever
      the JSON decoder would make of `[DONE]`. */
  lemma DoneLineIsOnlyDone(decode: Decoder)
    ensures ParseSseData(DoneLine, decode) == DoneMarker
  {
  }

  /** The decoder is fail-soft: a payload that does not parse, or parses
      without `choices[0].delta`, or a delta with neither channel, is no
      event; so is any line without the `data: ` prefix (`data:{...}`
      included). */
  lemma FailSoft(line: string, decode: Decoder)
    requires line != DoneLine && StartsWith(line, DataPrefix)
    requires var j := decode(line[|DataPrefix|..]);
      j.None? || j.value.delta.None?
      || (!Truthy(j.value.delta.value.reasoningContent) && !Truthy(j.value.delta.value.content))
    ensures ParseSseData(line, decode) == NoEvent
  {
  }

  /** A non-empty `reasoning_content` wins over `content`: the event is a
      message holding the trimmed text, with the first `<digits>%` as its
      progress when there is one. */
  lemma ReasoningTakesPrecedence(line: string, decode: Decoder, reasoning: string, content: Option<string>)
    requires line != DoneLine && StartsWith(line, DataPrefix)
    requires decode(line[|DataPrefix|..]) == Some(Payload(Some(Delta(Some(reasoning), content))))
    requires reasoning != []
    ensures ParseSseData(line, decode) == Message(ProgressIn(reasoning), Trim(reasoning))
  {
  }

  /** Without reasoning text, the event is the URL found in `content`, and
      no event when `content` holds no `src='…'`. */
  lemma ContentYieldsUrl(line: string, decode: Decoder, reasoning: Option<string>, content: string)
    requires line != DoneLine && StartsWith(line, DataPrefix)
    requires decode(line[|DataPrefix|..]) == Some(Payload(Some(Delta(reasoning, Some(content)))))
    requires !Truthy(reasoning)
    ensures UrlIn(content).Some? ==> ParseSseData(line, decode) == VideoUrl(UrlIn(content).value)
    ensures UrlIn(content).None? ==> ParseSseData(line, decode) == NoEvent
  {
  }

  /** Worked example of the progress channel: `45% rendering` is progress 45
      with that text as the message. */
  lemma ProgressExample(decode: Decoder, json: string)
    requires json != "[DONE]"
    requires decode(json) == Some(Payload(Some(Delta(Some("45% rendering"), None))))
    ensures ParseSseData(DataPrefix + json, decode) == Message(Some(45), "45% rendering")
  {
    PrefixedLine(json);
    ProgressOfRendered("", 45, " rendering");
    assert "" + NatToDecimal(45) + "%" + " rendering" == "45% rendering";
    var m := "45% rendering";
    assert !IsSpace(m[0]) && !IsSpace(m[|m| - 1]);
    assert TrimStart(m) == m && TrimEnd(m) == m;
  }

  /** Worked example of the content channel: `<video src='u'>` is the URL `u`. */
  lemma UrlExample(decode: Decoder, json: string, url: string)
    requires json != "[DONE]"
    requires url != [] && '\'' !in url
    requires decode(json) == Some(Payload(Some(Delta(None, Some("<video " + SrcOpen + url + "'>")))))
    ensures ParseSseData(DataPrefix + json, decode) == VideoUrl(url)
  {
    PrefixedLine(json);
    UrlOfRenderedTag("<video ", url, ">");
    assert "<video " + SrcOpen + url + "'" + ">" == "<video " + SrcOpen + url + "'>";
  }

  /** `data: ` followed by a payload other than `[DONE]` reaches the JSON
      decoder with exactly that payload. */
  lemma PrefixedLine(json: string)
    requires json != "[DONE]"
    ensures var line := DataPrefix + json;
      line != DoneLine && StartsWith(line, DataPrefix) && line[|DataPrefix|..] == json
  {
    var line := DataPrefix + json;
    assert line[..|DataPrefix|] == DataPrefix && line[|DataPrefix|..] == json;
  }
}

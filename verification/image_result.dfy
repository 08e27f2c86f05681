/** `process_result`: the label is the stripped concatenation of the text
    parts of the first candidate in the Gemini answer. */
module ImageResult {
  import opened Base
  import opened Json

  // ---------------------------------------------------------------
  // `str.strip()` with no argument.
  // ---------------------------------------------------------------

  /** Python `str.isspace()` for one character. */
  predicate IsSpace(c: char) {
    || c == ' ' || c == '\t' || c == '\n' || c == '\r'
    || c == '\U{000B}' || c == '\U{000C}'
    || c == '\U{001C}' || c == '\U{001D}' || c == '\U{001E}' || c == '\U{001F}'
    || c == '\U{0085}' || c == '\U{00A0}' || c == '\U{1680}'
    || ('\U{2000}' <= c <= '\U{200A}')
    || c == '\U{2028}' || c == '\U{2029}' || c == '\U{202F}' || c == '\U{205F}' || c == '\U{3000}'
  }

  /** The first position at or after `i` that is not whitespace, or |s|. */
  function SkipSpaces(s: string, i: nat): (j: nat)
    requires i <= |s|
    ensures i <= j <= |s|
    ensures forall k :: i <= k < j ==> IsSpace(s[k])
    ensures j < |s| ==> !IsSpace(s[j])
    decreases |s| - i
  {
    if i < |s| && IsSpace(s[i]) then SkipSpaces(s, i + 1) else i
  }

  /** The end of `s[lo..j]` once trailing whitespace is dropped. */
  function TrimEnd(s: string, lo: nat, j: nat): (e: nat)
    requires lo <= j <= |s|
    ensures lo <= e <= j
    ensures forall k :: e <= k < j ==> IsSpace(s[k])
    ensures e > lo ==> !IsSpace(s[e - 1])
    decreases j
  {
    if j > lo && IsSpace(s[j - 1]) then TrimEnd(s, lo, j - 1) else j
  }

  /** How many whitespace characters `strip()` removes at the front. */
  function LeadingSpaces(s: string): (n: nat)
    ensures n <= |s|
  {
    SkipSpaces(s, 0)
  }

  /** `s.strip()`: the infix left after removing whitespace at both ends. */
  function Strip(s: string): (r: string)
    ensures LeadingSpaces(s) + |r| <= |s|
    ensures r == s[LeadingSpaces(s)..LeadingSpaces(s) + |r|]
    ensures forall k :: 0 <= k < LeadingSpaces(s) ==> IsSpace(s[k])
    ensures forall k :: LeadingSpaces(s) + |r| <= k < |s| ==> IsSpace(s[k])
    ensures r == [] || (!IsSpace(r[0]) && !IsSpace(r[|r| - 1]))
  {
    var i := LeadingSpaces(s);
    var e := TrimEnd(s, i, |s|);
    assert e > i ==> s[i..e][0] == s[i] && s[i..e][e - i - 1] == s[e - 1];
    s[i..e]
  }

  /** Stripping twice is stripping once. */
  lemma StripIdempotent(s: string)
    ensures Strip(Strip(s)) == Strip(s)
  {
    var r := Strip(s);
    assert LeadingSpaces(r) == 0;
    assert TrimEnd(r, 0, |r|) == |r|;
  }

  /** Text with no whitespace at either end is its own strip. */
  lemma StripTrimmed(s: string)
    requires s == [] || (!IsSpace(s[0]) && !IsSpace(s[|s| - 1]))
    ensures Strip(s) == s
  {
    assert LeadingSpaces(s) == 0;
    assert TrimEnd(s, 0, |s|) == |s|;
  }

  // ---------------------------------------------------------------
  // Walking the answer (lines 392-411).
  // ---------------------------------------------------------------

  predicate TextAt(s: string, i: nat) {
    i + 4 <= |s| && s[i..i + 4] == "text"
  }

  /** Python `"text" in s`. */
  predicate ContainsText(s: string) {
    exists i: nat | i < |s| :: TextAt(s, i)
  }

  /** What `if "text" in p: text += p["text"]` does with one element of
      `parts`: skip it (None), append a string, or raise. */
  function PartText(p: Value): (r: Result<Option<string>>)
    ensures p.Object? && "text" !in p.members ==> r == Ok(None)
    ensures p.Object? && "text" in p.members && p.members["text"].Str? ==> r == Ok(Some(p.members["text"].s))
    ensures r.Ok? && r.value.Some? ==> p.Object? && "text" in p.members
  {
    match p
    case Object(members) =>
      if "text" !in members then Ok(None)
      else if members["text"].Str? then Ok(Some(members["text"].s))
      else Raised("TypeError: can only concatenate str to str")
    case Str(s) =>
      if ContainsText(s) then Raised("TypeError: string indices must be integers") else Ok(None)
    case Array(items) =>
      if Str("text") in items then Raised("TypeError: list indices must be integers") else Ok(None)
    case _ => Raised("TypeError: argument of type is not iterable")
  }

  /** The loop over `parts`, given what each element contributes: texts
      appended in order, the first exception ends it. */
  function Appended(steps: seq<Result<Option<string>>>): (r: Result<string>)
    ensures (forall k :: 0 <= k < |steps| ==> steps[k].Ok?) <==> r.Ok?
  {
    if |steps| == 0 then Ok("")
    else
      match steps[0]
      case Raised(e) => Raised(e)
      case Ok(t) =>
        var rest := Appended(steps[1..]);
        assert forall k :: 1 <= k < |steps| ==> steps[k] == steps[1..][k - 1];
        match rest
        case Raised(e) => Raised(e)
        case Ok(more) => Ok(t.GetOr("") + more)
  }

  /** Appending two runs of contributions concatenates their texts. */
  lemma {:induction false} AppendedAppend(a: seq<Result<Option<string>>>, b: seq<Result<Option<string>>>)
    requires Appended(a).Ok? && Appended(b).Ok?
    ensures Appended(a + b) == Ok(Appended(a).value + Appended(b).value)
    decreases |a|
  {
    if |a| == 0 {
      assert a + b == b;
      assert Appended(a).value == "";
      assert "" + Appended(b).value == Appended(b).value;
    } else {
      var x := a[0].value.GetOr("");
      assert Appended(a[1..]).Ok?;
      AppendedAppend(a[1..], b);
      assert (a + b)[1..] == a[1..] + b;
      assert (a + b)[0] == a[0];
      assert Appended(a) == Ok(x + Appended(a[1..]).value);
      assert Appended(a + b) == Ok(x + Appended(a[1..] + b).value);
      assert x + (Appended(a[1..]).value + Appended(b).value)
          == (x + Appended(a[1..]).value) + Appended(b).value;
    }
  }

  function Contributions(parts: seq<Value>): (steps: seq<Result<Option<string>>>)
    ensures |steps| == |parts|
    ensures forall k :: 0 <= k < |parts| ==> steps[k] == PartText(parts[k])
  {
    seq(|parts|, k requires 0 <= k < |parts| => PartText(parts[k]))
  }

  /** `for p in parts: if "text" in p: text += p["text"]`. */
  function ConcatText(parts: seq<Value>): (r: Result<string>)
    ensures (forall k :: 0 <= k < |parts| ==> PartText(parts[k]).Ok?) <==> r.Ok?
  {
    Appended(Contributions(parts))
  }

  /** Concatenating two runs of parts concatenates their texts. */
  lemma ConcatTextAppend(a: seq<Value>, b: seq<Value>)
    requires ConcatText(a).Ok? && ConcatText(b).Ok?
    ensures ConcatText(a + b) == Ok(ConcatText(a).value + ConcatText(b).value)
  {
    assert Contributions(a + b) == Contributions(a) + Contributions(b);
    AppendedAppend(Contributions(a), Contributions(b));
  }

  /** `for p in parts` over whatever `parts` turned out to be. */
  function PartsText(parts: Value): Result<string> {
    match parts
    case Array(items) => ConcatText(items)
    case Str(s) => Ok("")   // one-character strings never contain "text"
    case Object(members) =>
      if exists key :: key in members && ContainsText(key)
      then Raised("TypeError: string indices must be integers")
      else Ok("")
    case _ => Raised("TypeError: object is not iterable")
  }

  /** `dict.get(key, default)` on a value that must be a dict. */
  function Get(v: Value, key: string, default: Value): Result<Value> {
    if !v.Object? then Raised("AttributeError: object has no attribute 'get'")
    else if key in v.members then Ok(v.members[key])
    else Ok(default)
  }

  /** `seq[0]` on the decoded candidates list. */
  function First(v: Value): Result<Value> {
    match v
    case Array(items) => if |items| > 0 then Ok(items[0]) else Raised("IndexError: list index out of range")
    case Object(_) => Raised("KeyError: 0")
    case Str(s) => if |s| > 0 then Ok(Str(s[..1])) else Raised("IndexError: string index out of range")
    case _ => Raised("TypeError: object is not subscriptable")
  }

  datatype Processed =
    | NoLabel               // `return None` for a falsy result
    | Label(text: string)   // the stripped text
    | Crash(error: string)  // an exception nobody catches

  /** `result.get('candidates', [{}])[0]`. */
  function FirstCandidate(body: Value): (r: Result<Value>)
    // no `candidates` key: the default `[{}]` gives an empty candidate
    ensures body.Object? && "candidates" !in body.members ==> r == Ok(Object(map[]))
    // an empty candidate list raises IndexError
    ensures (body.Object? && "candidates" in body.members && body.members["candidates"] == Array([])) ==> r.Raised?
    // a non-empty candidate list gives its first element
    ensures (body.Object? && "candidates" in body.members && body.members["candidates"].Array? &&
             |body.members["candidates"].items| > 0) ==> r == Ok(body.members["candidates"].items[0])
  {
    match Get(body, "candidates", Array([Object(map[])]))
    case Raised(e) => Raised(e)
    case Ok(candidates) => First(candidates)
  }

  /** `candidate.get('content', {}).get('parts', [])`: the parts list of a
      dict content, whatever other keys the content has. */
  function ContentParts(candidate: Value): (r: Result<Value>)
    ensures r.Ok? ==> candidate.Object?
    ensures candidate.Object? && "content" !in candidate.members ==> r == Ok(Array([]))
    ensures (candidate.Object? && "content" in candidate.members && candidate.members["content"].Object? &&
             "parts" in candidate.members["content"].members) ==>
      r == Ok(candidate.members["content"].members["parts"])
  {
    match Get(candidate, "content", Object(map[]))
    case Raised(e) => Raised(e)
    case Ok(content) => Get(content, "parts", Array([]))
  }

  /** `result.get('candidates', [{}])[0].get('content', {}).get('parts', [])`. */
  function CandidateParts(body: Value): (r: Result<Value>)
    // no `candidates` key: the default `[{}]` leads to an empty parts list
    ensures body.Object? && "candidates" !in body.members ==> r == Ok(Array([]))
    // an empty candidate list raises IndexError
    ensures (body.Object? && "candidates" in body.members && body.members["candidates"] == Array([])) ==> r.Raised?
  {
    match FirstCandidate(body)
    case Raised(e) => Raised(e)
    case Ok(candidate) => ContentParts(candidate)
  }

  // ---------------------------------------------------------------
  // The grounding printout (lines 426-433). It only prints, but it runs
  // before `return label` and can raise.
  // ---------------------------------------------------------------

  /** An attribution the printout can read: a dict whose `web`, when
      present, is a dict. */
  predicate ReadableAttribution(a: Value) {
    a.Object? && ("web" in a.members ==> a.members["web"].Object?)
  }

  /** A candidate whose grounding metadata the printout walks without
      raising: none at all, or a dict whose attributions are absent, falsy,
      or a list of readable attributions. */
  predicate ReadableGrounding(candidate: map<string, Value>) {
    "groundingMetadata" in candidate ==>
      var g := candidate["groundingMetadata"];
      && g.Object?
      && ("groundingAttributions" in g.members ==>
            var attrs := g.members["groundingAttributions"];
            !attrs.Truthy() ||
            (attrs.Array? && forall k :: 0 <= k < |attrs.items| ==> ReadableAttribution(attrs.items[k])))
  }

  /** `for a in attrs: web = a.get('web', {}); if web.get('uri'): ...`. */
  function PrintAttributions(attrs: seq<Value>): (r: Result<()>)
    ensures r.Ok? <==> forall k :: 0 <= k < |attrs| ==> ReadableAttribution(attrs[k])
  {
    if |attrs| == 0 then Ok(())
    else
      match Get(attrs[0], "web", Object(map[]))
      case Raised(e) => Raised(e)
      case Ok(web) =>
        if !web.Object? then Raised("AttributeError: object has no attribute 'get'")
        else
          var rest := PrintAttributions(attrs[1..]);
          assert forall k :: 1 <= k < |attrs| ==> attrs[k] == attrs[1..][k - 1];
          rest
  }

  /** Lines 426-433 on a candidate dict: iterating a truthy string or dict
      yields strings, which have no `get`; a truthy number or boolean is not
      iterable. */
  function PrintGrounding(candidate: map<string, Value>): (r: Result<()>)
    ensures r.Ok? <==> ReadableGrounding(candidate)
  {
    match Get(Object(candidate), "groundingMetadata", Object(map[]))
    case Raised(e) => Raised(e)
    case Ok(grounding) =>
      match Get(grounding, "groundingAttributions", Array([]))
      case Raised(e) => Raised(e)
      case Ok(attrs) =>
        if !attrs.Truthy() then Ok(())
        else
          match attrs
          case Array(items) => PrintAttributions(items)
          case Str(_) => Raised("AttributeError: 'str' object has no attribute 'get'")
          case Object(_) => Raised("AttributeError: 'str' object has no attribute 'get'")
          case _ => Raised("TypeError: object is not iterable")
  }

  function ProcessResult(result: Option<Value>): (r: Processed)
    // nothing, or an empty answer, gives no label
    ensures result.None? || !result.value.Truthy() ==> r == NoLabel
    // a label never starts or ends with whitespace
    ensures r.Label? ==> r.text == [] || (!IsSpace(r.text[0]) && !IsSpace(r.text[|r.text| - 1]))
    // an answer without `candidates` gives the empty label ...
    ensures result.Some? && result.value.Object? && result.value.Truthy() && "candidates" !in result.value.members ==>
      r == Label("")
    // ... and one with an empty candidate list crashes
    ensures (result.Some? && result.value.Truthy() && result.value.Object? && "candidates" in result.value.members &&
             result.value.members["candidates"] == Array([])) ==> r.Crash?
    // a label is returned only for a candidate dict whose grounding the printout can walk
    ensures r.Label? ==>
      (result.Some? && FirstCandidate(result.value).Ok? && FirstCandidate(result.value).value.Object? &&
       ReadableGrounding(FirstCandidate(result.value).value.members))
  {
    if result.None? || !result.value.Truthy() then NoLabel
    else
      match FirstCandidate(result.value)
      case Raised(e) => Crash(e)
      case Ok(candidate) =>
        match ContentParts(candidate)
        case Raised(e) => Crash(e)
        case Ok(parts) =>
          match PartsText(parts)
          case Raised(e) => Crash(e)
          case Ok(text) =>
            match PrintGrounding(candidate.members)
            case Raised(e) => Crash(e)
            case Ok(_) => Label(Strip(text))
  }

  /** A part the model answers with: an object, its `text` a string when present. */
  predicate WellFormedPart(p: Value) {
    p.Object? && ("text" in p.members ==> p.members["text"].Str?)
  }

  /** The texts of well-formed parts, in order, skipping parts without one. */
  function Texts(parts: seq<Value>): string
    requires forall k :: 0 <= k < |parts| ==> WellFormedPart(parts[k])
  {
    if |parts| == 0 then ""
    else
      var p := parts[0];
      assert WellFormedPart(p);
      (if "text" in p.members then p.members["text"].s else "") + Texts(parts[1..])
  }

  lemma {:induction false} AppendedWellFormed(parts: seq<Value>)
    requires forall k :: 0 <= k < |parts| ==> WellFormedPart(parts[k])
    ensures Appended(Contributions(parts)) == Ok(Texts(parts))
    decreases |parts|
  {
    if |parts| > 0 {
      AppendedWellFormed(parts[1..]);
      assert Contributions(parts)[1..] == Contributions(parts[1..]);
      assert WellFormedPart(parts[0]);
    }
  }

  /** Well-formed parts contribute exactly their texts. */
  lemma ConcatTextWellFormed(parts: seq<Value>)
    requires forall k :: 0 <= k < |parts| ==> WellFormedPart(parts[k])
    ensures ConcatText(parts) == Ok(Texts(parts))
  {
    AppendedWellFormed(parts);
  }

  /** A content object holding `parts`, whatever else it holds (Gemini adds `role`). */
  predicate HasParts(candidate: map<string, Value>, parts: seq<Value>) {
    && "content" in candidate && candidate["content"].Object?
    && "parts" in candidate["content"].members && candidate["content"].members["parts"] == Array(parts)
  }

  /** The parts of a well-formed answer are those of its first candidate. */
  lemma CandidatePartsOfAnswer(parts: seq<Value>, candidate: map<string, Value>, others: seq<Value>, body: map<string, Value>)
    requires HasParts(candidate, parts)
    requires "candidates" in body && body["candidates"] == Array([Object(candidate)] + others)
    ensures FirstCandidate(Object(body)) == Ok(Object(candidate))
    ensures ContentParts(Object(candidate)) == Ok(Array(parts))
  {
    assert body["candidates"].items[0] == Object(candidate);
  }

  /** The label of a well-formed answer: the stripped in-order concatenation
      of the first candidate's text parts, whatever other keys the content
      has; later candidates are ignored. Grounding metadata the printout
      cannot walk turns the answer into a crash instead. */
  lemma LabelOfAnswer(parts: seq<Value>, candidate: map<string, Value>, others: seq<Value>, body: map<string, Value>)
    requires forall k :: 0 <= k < |parts| ==> WellFormedPart(parts[k])
    requires HasParts(candidate, parts)
    requires "candidates" in body && body["candidates"] == Array([Object(candidate)] + others)
    ensures ProcessResult(Some(Object(body))) == Label(Strip(Texts(parts))) <==> ReadableGrounding(candidate)
    ensures !ReadableGrounding(candidate) ==> ProcessResult(Some(Object(body))).Crash?
  {
    CandidatePartsOfAnswer(parts, candidate, others, body);
    ConcatTextWellFormed(parts);
    assert PartsText(Array(parts)) == Ok(Texts(parts));
    LabelOfParts(Object(body), candidate, Array(parts), Texts(parts));
  }

  lemma LabelOfParts(body: Value, candidate: map<string, Value>, parts: Value, text: string)
    requires body.Object? && |body.members| > 0
    requires FirstCandidate(body) == Ok(Object(candidate))
    requires ContentParts(Object(candidate)) == Ok(parts) && PartsText(parts) == Ok(text)
    ensures ReadableGrounding(candidate) ==> ProcessResult(Some(body)) == Label(Strip(text))
    ensures !ReadableGrounding(candidate) ==> ProcessResult(Some(body)).Crash?
  {
    assert body.Truthy();
  }

  /** A Gemini-shaped answer: one candidate whose content carries the parts
      and the `role`, with no grounding metadata. */
  lemma LabelOfGeminiAnswer(text: string)
    ensures var part := Object(map["text" := Str(text)]);
      var content := Object(map["parts" := Array([part]), "role" := Str("model")]);
      var body := map["candidates" := Array([Object(map["content" := content])])];
      ProcessResult(Some(Object(body))) == Label(Strip(text))
  {
    var part := Object(map["text" := Str(text)]);
    var content := map["parts" := Array([part]), "role" := Str("model")];
    var candidate := map["content" := Object(content)];
    assert "parts" in content && content["parts"] == Array([part]);
    assert HasParts(candidate, [part]);
    assert "groundingMetadata" !in candidate by {
      assert "groundingMetadata"[0] != "content"[0];
    }
    assert WellFormedPart(part);
    assert Texts([part]) == text;
    LabelOfAnswer([part], candidate, [], map["candidates" := Array([Object(candidate)])]);
  }
}

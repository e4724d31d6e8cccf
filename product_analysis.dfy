/** The `analyzeProductImage` callable of `functions/index.js`: input checks, removal of the
    markdown code fences around the model's reply, and validation of the parsed listing
    suggestion. The vision call is its reply; `JSON.parse` is a parameter applied to the
    cleaned text. */
module ProductAnalysis {
  import opened Text
  import opened Outcomes

  const Fence: string := "```"
  const JsonFence: string := "```json"

  /** `s.replace(new RegExp(marker + '\\s*', 'g'), '')`: scanning left to right, every
      occurrence of `marker` is removed together with the white space that follows it, and
      the scan resumes after the removed text. */
  function RemoveMarker(s: string, marker: string): string
    requires marker != ""
    decreases |s|
  {
    if StartsWith(s, marker) then RemoveMarker(TrimStart(s[|marker|..]), marker)
    else if s == [] then []
    else [s[0]] + RemoveMarker(s[1..], marker)
  }

  /** The reply with every "```json" and then every "```" removed, each with the white space
      after it (two global regular-expression replacements), and then trimmed. */
  function CleanReply(reply: string): string
  {
    Trim(RemoveMarker(RemoveMarker(reply, JsonFence), Fence))
  }

  /** No three consecutive backticks anywhere in `s`. */
  predicate NoFence(s: string)
  {
    forall i :: 0 <= i < |s| - 2 ==> !(s[i] == '`' && s[i + 1] == '`' && s[i + 2] == '`')
  }

  /** A first character that is not a backtick survives the removal. */
  lemma KeepsFirstChar(s: string)
    requires s != [] && s[0] != '`'
    ensures RemoveMarker(s, Fence) != [] && RemoveMarker(s, Fence)[0] == s[0]
  {
    assert |s| < 3 || s[..3][0] == s[0];
  }

  /** Removing every fence leaves no fence behind, and text that does not begin with two
      backticks does not come out beginning with two backticks (so no fence forms where a
      removed one joined its neighbours). */
  lemma {:induction false} RemoveFenceLeavesNone(s: string)
    ensures NoFence(RemoveMarker(s, Fence))
    ensures !(|s| >= 2 && s[0] == '`' && s[1] == '`') ==>
      var r := RemoveMarker(s, Fence);
      !(|r| >= 2 && r[0] == '`' && r[1] == '`')
    decreases |s|
  {
    if StartsWith(s, Fence) {
      var t := TrimStart(s[|Fence|..]);
      RemoveFenceLeavesNone(t);
    } else if s != [] {
      var t := s[1..];
      var rt := RemoveMarker(t, Fence);
      var r := RemoveMarker(s, Fence);
      RemoveFenceLeavesNone(t);
      assert r == [s[0]] + rt;
      if s[0] == '`' {
        // s does not start with a fence, so t does not start with two backticks.
        assert |s| < 3 || s[..3] == [s[0], t[0], t[1]];
        if |t| >= 2 && t[0] == '`' {
          assert t[1] != '`';
          assert |t| < 3 || t[..3][1] == t[1];
          KeepsFirstChar(t[1..]);
          assert rt == [t[0]] + RemoveMarker(t[1..], Fence);
          assert rt[1] == t[1];
        } else if |t| >= 1 && t[0] != '`' {
          KeepsFirstChar(t);
        } else if |t| == 1 {
          assert !StartsWith(t, Fence);
          assert rt == [t[0]] + RemoveMarker([], Fence);
        }
        assert !(|rt| >= 2 && rt[0] == '`' && rt[1] == '`');
      } else {
        if |s| >= 2 {
          assert r[0] == s[0];
        }
      }
      forall i | 0 <= i < |r| - 2 ensures !(r[i] == '`' && r[i + 1] == '`' && r[i + 2] == '`') {
        if i > 0 {
          assert r[i] == rt[i - 1] && r[i + 1] == rt[i] && r[i + 2] == rt[i + 1];
        }
      }
    }
  }

  /** A slice of fence-free text is fence-free. */
  lemma NoFenceSlice(s: string, i: nat, j: nat)
    requires i <= j <= |s| && NoFence(s)
    ensures NoFence(s[i..j])
  {
    forall k | 0 <= k < |s[i..j]| - 2
      ensures !(s[i..j][k] == '`' && s[i..j][k + 1] == '`' && s[i..j][k + 2] == '`')
    {
      assert s[i..j][k] == s[i + k] && s[i..j][k + 1] == s[i + k + 1] && s[i..j][k + 2] == s[i + k + 2];
    }
  }

  lemma NoFenceNotContains(s: string)
    requires NoFence(s)
    ensures !Contains(s, Fence)
  {
    ContainsIffOccurs(s, Fence);
    forall i ensures !OccursAt(s, Fence, i) {
      if 0 <= i && i + 3 <= |s| {
        assert s[i..i + 3] == [s[i], s[i + 1], s[i + 2]];
      }
    }
  }

  /** The cleaned reply contains no three backticks and has no white space at either end. */
  lemma CleanReplyFenceFree(reply: string)
    ensures !Contains(CleanReply(reply), Fence)
    ensures var c := CleanReply(reply); c == [] || (!IsSpace(c[0]) && !IsSpace(c[|c| - 1]))
  {
    var x := RemoveMarker(RemoveMarker(reply, JsonFence), Fence);
    RemoveFenceLeavesNone(RemoveMarker(reply, JsonFence));
    var i, j := TrimSlice(x);
    NoFenceSlice(x, i, j);
    NoFenceNotContains(CleanReply(reply));
  }

  /** Text without a backtick holds no marker, so the removal leaves it as it is. */
  lemma {:induction false} RemoveMarkerNoBacktick(s: string, marker: string)
    requires marker != "" && marker[0] == '`' && '`' !in s
    ensures RemoveMarker(s, marker) == s
    decreases |s|
  {
    if s != [] {
      assert |s| < |marker| || s[..|marker|][0] == s[0];
      RemoveMarkerNoBacktick(s[1..], marker);
    }
  }

  /** A reply without backticks is only trimmed. */
  lemma CleanReplyNoBacktick(reply: string)
    requires '`' !in reply
    ensures CleanReply(reply) == Trim(reply)
  {
    RemoveMarkerNoBacktick(reply, JsonFence);
    RemoveMarkerNoBacktick(reply, Fence);
  }

  /** Text without a backtick passes through the removal untouched, whatever follows it. */
  lemma {:induction false} RemoveMarkerSkips(body: string, tail: string, marker: string)
    requires marker != "" && marker[0] == '`' && '`' !in body
    ensures RemoveMarker(body + tail, marker) == body + RemoveMarker(tail, marker)
    decreases |body|
  {
    if body == [] {
      assert body + tail == tail;
    } else {
      var s := body + tail;
      assert s[0] == body[0];
      assert |s| < |marker| || s[..|marker|][0] == s[0];
      assert s[1..] == body[1..] + tail;
      RemoveMarkerSkips(body[1..], tail, marker);
      assert body == [body[0]] + body[1..];
    }
  }

  /** Leading white space is dropped up to a character that is not white space. */
  lemma {:induction false} TrimStartBefore(s: string, t: string)
    requires t != [] && !IsSpace(t[0])
    ensures TrimStart(s + t) == TrimStart(s) + t
    decreases |s|
  {
    if s == [] {
      assert s + t == t;
    } else {
      assert (s + t)[0] == s[0] && (s + t)[1..] == s[1..] + t;
      TrimStartBefore(s[1..], t);
    }
  }

  /** A lone closing fence survives the "```json" pass and vanishes in the "```" pass. */
  lemma ClosingFence()
    ensures RemoveMarker(Fence, JsonFence) == Fence
    ensures RemoveMarker(Fence, Fence) == []
  {
    assert RemoveMarker("`", JsonFence) == "`";
    assert RemoveMarker("``", JsonFence) == "``";
    assert StartsWith(Fence, Fence) && Fence[|Fence|..] == [];
  }

  /** The reply shape the fence removal is written for: a "```json" fence around a body
      without backticks (white space and line breaks included in it) comes out as the
      trimmed body. */
  lemma FencedReplyRoundTrip(body: string)
    requires '`' !in body
    ensures CleanReply(JsonFence + body + Fence) == Trim(body)
  {
    var s := JsonFence + body + Fence;
    assert s[..|JsonFence|] == JsonFence && s[|JsonFence|..] == body + Fence;
    TrimStartBefore(body, Fence);
    var b := TrimStart(body);
    TrimStartShape(body);
    assert forall c | c in b :: c in body;
    ClosingFence();
    RemoveMarkerSkips(b, Fence, JsonFence);
    RemoveMarkerSkips(b, Fence, Fence);
    assert b + [] == b;
    assert RemoveMarker(RemoveMarker(s, JsonFence), Fence) == b;
    assert TrimStart(b) == b;
  }

  /** The fields of the parsed suggestion; each may be missing or of any JSON type. */
  datatype Analysis = Analysis(
    title: Field,
    description: Field,
    category: Field,
    priceMin: Field,
    priceMax: Field,
    priceReason: Field)

  /** The response object `{ success: true, data: parsed }`. */
  datatype AnalysisResponse = AnalysisResponse(success: bool, data: Analysis)

  const ImageRequired: string := "이미지 데이터가 필요합니다."
  const ErrorPrefix: string := "AI 분석 중 오류가 발생했습니다: "
  const NotJson: string := "AI가 올바른 JSON 형식으로 응답하지 않았습니다."
  const MissingFields: string := "AI 응답에 필수 필드가 없습니다."
  const NotAllowed: string := "이 상품은 중고거래 플랫폼에 등록할 수 없는 품목입니다."

  /** The title the model gives an item that may not be listed. */
  const BannedTitle: string := "등록 불가"

  /** Title, description and category are all truthy. */
  predicate HasRequiredFields(parsed: Analysis)
  {
    parsed.title.Truthy() && parsed.description.Truthy() && parsed.category.Truthy()
  }

  /** The checks on the parsed reply: the error they throw, if any. */
  function ValidateAnalysis(parsed: Analysis): Option<string>
  {
    if !HasRequiredFields(parsed) then Some(MissingFields)
    else if parsed.title == Str(BannedTitle) then Some(NotAllowed)
    else None
  }

  /** A suggestion the callable hands back: title, description and category present and
      non-empty, and not the "cannot be listed" answer. */
  predicate Acceptable(parsed: Analysis)
  {
    HasRequiredFields(parsed) && parsed.title != Str(BannedTitle)
  }

  /** How the `try` block ends: it returns the suggestion or throws a plain `Error`, of which
      the `catch` reads only the message. */
  datatype TryOutcome = Returned(value: Analysis) | Thrown(message: string)

  /** The body of the `try` block: the call's reply cleaned, parsed and validated, or the
      error it throws (the call's own error, the parse error or a validation error). The
      missing-field check comes before the banned-title check. */
  function AnalyzeReply(reply: Call<string>, parse: string -> Parse<Analysis>): (outcome: TryOutcome)
    ensures outcome.Returned? <==>
      reply.Answered? && parse(CleanReply(reply.body)).Parsed? && Acceptable(parse(CleanReply(reply.body)).value)
    ensures outcome.Returned? ==> outcome.value == parse(CleanReply(reply.body)).value
    ensures reply.Failed? ==> outcome == Thrown(reply.message)
    ensures reply.Answered? && parse(CleanReply(reply.body)).Malformed? ==> outcome == Thrown(NotJson)
    ensures reply.Answered? && parse(CleanReply(reply.body)).Parsed?
            && !HasRequiredFields(parse(CleanReply(reply.body)).value) ==>
      outcome == Thrown(MissingFields)
    ensures reply.Answered? && parse(CleanReply(reply.body)).Parsed?
            && HasRequiredFields(parse(CleanReply(reply.body)).value)
            && parse(CleanReply(reply.body)).value.title == Str(BannedTitle) ==>
      outcome == Thrown(NotAllowed)
  {
    if reply.Failed? then Thrown(reply.message)
    else
      var parsed := parse(CleanReply(reply.body));
      if parsed.Malformed? then Thrown(NotJson)
      else
        var problem := ValidateAnalysis(parsed.value);
        if problem.Some? then Thrown(problem.value) else Returned(parsed.value)
  }

  /** A message built as `prefix + cause` starts with `prefix`. */
  lemma PrefixedMessage(prefix: string, cause: string)
    ensures StartsWith(prefix + cause, prefix)
  {
    assert (prefix + cause)[..|prefix|] == prefix;
  }

  /** `analyzeProductImage`: identity, then the image argument, both before any call; then
      the call, cleaning, parsing and validation, where every failure becomes `internal` with
      the cause's message after a fixed prefix. */
  function AnalyzeProductImage(authenticated: bool, image: Field, reply: Call<string>,
                               parse: string -> Parse<Analysis>): (r: Result<AnalysisResponse>)
    ensures !authenticated ==> r == Err(HttpsError(Unauthenticated, LoginRequired))
    ensures authenticated && !(image.Str? && image.value != "") ==>
      r == Err(HttpsError(InvalidArgument, ImageRequired))
    ensures r.Ok? <==>
      && authenticated && image.Str? && image.value != ""
      && reply.Answered? && parse(CleanReply(reply.body)).Parsed?
      && Acceptable(parse(CleanReply(reply.body)).value)
    ensures r.Ok? ==> r.value == AnalysisResponse(true, parse(CleanReply(reply.body)).value)
    ensures authenticated && image.Str? && image.value != "" && reply.Failed? ==>
      r == Err(HttpsError(Internal, ErrorPrefix + reply.message))
    ensures authenticated && image.Str? && image.value != "" && reply.Answered?
            && parse(CleanReply(reply.body)).Malformed? ==>
      r == Err(HttpsError(Internal, ErrorPrefix + NotJson))
    ensures authenticated && image.Str? && image.value != "" && reply.Answered?
            && parse(CleanReply(reply.body)).Parsed?
            && !HasRequiredFields(parse(CleanReply(reply.body)).value) ==>
      r == Err(HttpsError(Internal, ErrorPrefix + MissingFields))
    ensures authenticated && image.Str? && image.value != "" && reply.Answered?
            && parse(CleanReply(reply.body)).Parsed?
            && HasRequiredFields(parse(CleanReply(reply.body)).value)
            && parse(CleanReply(reply.body)).value.title == Str(BannedTitle) ==>
      r == Err(HttpsError(Internal, ErrorPrefix + NotAllowed))
    ensures authenticated && image.Str? && image.value != "" && r.Err? ==>
      r.error.code == Internal && StartsWith(r.error.message, ErrorPrefix)
  {
    if !authenticated then Err(HttpsError(Unauthenticated, LoginRequired))
    else if !image.Truthy() || !image.Str? then Err(HttpsError(InvalidArgument, ImageRequired))
    else
      var outcome := AnalyzeReply(reply, parse);
      if outcome.Returned? then Ok(AnalysisResponse(true, outcome.value))
      else
        PrefixedMessage(ErrorPrefix, outcome.message);
        Err(HttpsError(Internal, ErrorPrefix + outcome.message))
  }

  /** The two refusal answers the model is told to give are refused: the "cannot identify"
      answer has an empty title, so a required field is missing; the "cannot be listed"
      answer has all fields but the banned title. */
  lemma RefusalsRejected(reply: string, parse: string -> Parse<Analysis>, image: string, parsed: Analysis)
    requires image != "" && parse(CleanReply(reply)) == Parsed(parsed)
    ensures parsed.title == Str("") ==>
      AnalyzeProductImage(true, Str(image), Answered(reply), parse) ==
        Err(HttpsError(Internal, ErrorPrefix + MissingFields))
    ensures parsed.title == Str(BannedTitle) && parsed.description.Truthy() && parsed.category.Truthy() ==>
      AnalyzeProductImage(true, Str(image), Answered(reply), parse) ==
        Err(HttpsError(Internal, ErrorPrefix + NotAllowed))
  {
    if parsed.title == Str("") {
      assert ValidateAnalysis(parsed) == Some(MissingFields);
    } else if parsed.title == Str(BannedTitle) && parsed.description.Truthy() && parsed.category.Truthy() {
      assert ValidateAnalysis(parsed) == Some(NotAllowed);
    }
  }
}

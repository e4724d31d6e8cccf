/** Content moderation of `functions/index.js`: the fail-open profanity check around the
    completion service, its callable front end with the input checks, and the decisions of
    the two create triggers (the `snap.ref.delete()` effect is the returned decision). */
module Moderation {
  import opened Text
  import opened Outcomes

  /** The object the check yields: `isClean` as the truthiness of that property of the parsed
      reply, and the optional `reason`. */
  datatype Verdict = Verdict(isClean: bool, reason: Option<string>)

  /** `{ isClean: true }`. */
  const CleanVerdict: Verdict := Verdict(true, None)

  /** The reply parsed, and the verdict it parsed to says "not clean". */
  predicate Flagged(reply: Call<Parse<Verdict>>)
  {
    reply.Answered? && reply.body.Parsed? && !reply.body.value.isClean
  }

  /** `checkProfanity(text)`: the parsed reply when the call and `JSON.parse` both succeed;
      `{ isClean: true }` on any error, so that an outage never blocks content. */
  function CheckProfanity(reply: Call<Parse<Verdict>>): (v: Verdict)
    ensures reply.Answered? && reply.body.Parsed? ==> v == reply.body.value
    ensures !(reply.Answered? && reply.body.Parsed?) ==> v == CleanVerdict
    ensures !v.isClean <==> Flagged(reply)
  {
    match reply
    case Answered(Parsed(verdict)) => verdict
    case _ => CleanVerdict
  }

  const TextRequired: string := "텍스트를 입력해주세요."
  const BlankText: string := "빈 텍스트는 검사할 수 없습니다."
  const TextTooLong: string := "텍스트가 너무 깁니다. (최대 5000자)"

  /** The longest text the callable accepts, in characters. */
  const MaxTextLength: nat := 5000

  /** The `checkProfanity` callable: identity, then presence and type, then blankness, then
      length, each failing with its own message; the check runs only on accepted text. */
  function CheckProfanityCallable(authenticated: bool, text: Field, reply: Call<Parse<Verdict>>): (r: Result<Verdict>)
    ensures !authenticated ==> r == Err(HttpsError(Unauthenticated, LoginRequired))
    ensures authenticated && !(text.Str? && text.value != "") ==>
      r == Err(HttpsError(InvalidArgument, TextRequired))
    ensures authenticated && text.Str? && text.value != "" && Trim(text.value) == "" ==>
      r == Err(HttpsError(InvalidArgument, BlankText))
    ensures authenticated && text.Str? && Trim(text.value) != "" && |text.value| > MaxTextLength ==>
      r == Err(HttpsError(InvalidArgument, TextTooLong))
    ensures r.Ok? <==> authenticated && text.Str? && Trim(text.value) != "" && |text.value| <= MaxTextLength
    ensures r.Ok? ==> r.value == CheckProfanity(reply)
  {
    if !authenticated then Err(HttpsError(Unauthenticated, LoginRequired))
    else if !text.Truthy() || !text.Str? then Err(HttpsError(InvalidArgument, TextRequired))
    else if Trim(text.value) == "" then Err(HttpsError(InvalidArgument, BlankText))
    else if |text.value| > MaxTextLength then Err(HttpsError(InvalidArgument, TextTooLong))
    else Ok(CheckProfanity(reply))
  }

  /** The length bound is inclusive and comes after the blankness check: a signed-in caller's
      string of at most 5000 characters with a non-white-space character is checked, 5000
      exactly included; a longer one is refused as too long; and an all-white-space string is
      refused as blank whatever its length. */
  lemma ProfanityInputBoundaries(text: string, reply: Call<Parse<Verdict>>)
    ensures (exists k :: 0 <= k < |text| && !IsSpace(text[k])) && |text| <= MaxTextLength ==>
      CheckProfanityCallable(true, Str(text), reply) == Ok(CheckProfanity(reply))
    ensures (exists k :: 0 <= k < |text| && !IsSpace(text[k])) && |text| > MaxTextLength ==>
      CheckProfanityCallable(true, Str(text), reply) == Err(HttpsError(InvalidArgument, TextTooLong))
    ensures text != "" && (forall k :: 0 <= k < |text| ==> IsSpace(text[k])) ==>
      CheckProfanityCallable(true, Str(text), reply) == Err(HttpsError(InvalidArgument, BlankText))
  {
    TrimEmptyIff(text);
  }

  /** What a create trigger does with the new document. */
  datatype Decision = Keep | Delete

  /** `checkNewsOnCreate`: both the title and the content are checked, and the post is deleted
      when either check says "not clean". Because of the fail-open rule that happens only
      when a reply parsed to a "not clean" verdict. */
  function CheckNewsOnCreate(titleReply: Call<Parse<Verdict>>, contentReply: Call<Parse<Verdict>>): (d: Decision)
    ensures d == Delete <==> Flagged(titleReply) || Flagged(contentReply)
  {
    var titleCheck := CheckProfanity(titleReply);
    var contentCheck := CheckProfanity(contentReply);
    if !titleCheck.isClean || !contentCheck.isClean then Delete else Keep
  }

  /** `checkCommentOnCreate`: the comment is deleted exactly when its content's reply parsed
      to a "not clean" verdict. */
  function CheckCommentOnCreate(contentReply: Call<Parse<Verdict>>): (d: Decision)
    ensures d == Delete <==> Flagged(contentReply)
  {
    var result := CheckProfanity(contentReply);
    if !result.isClean then Delete else Keep
  }
}

/**
 * The form validators shared by the chat screens: each one trims its input, then checks
 * the trimmed text's length (in UTF-16 code units, as JavaScript counts it) against a
 * window, and the username also against the character class `[a-zA-Z0-9_]`. A validator
 * either returns the trimmed text or the first rule it breaks.
 */
module Validation {
  import opened Wrappers
  import opened Strings

  /** The rule an input breaks; the screens show its message. */
  datatype Issue = TooShort(min: nat) | TooLong(max: nat) | BadCharacters | Suspicious

  /** A trimmed string whose length lies in `min..max`. */
  function CheckLength(s: string, min: nat, max: nat): (r: Result<string, Issue>)
    ensures r.Ok? <==> min <= JsLength(Trim(s)) <= max
    ensures r.Ok? ==> r.value == Trim(s)
    ensures r.Err? ==> r.error == TooShort(min) || r.error == TooLong(max)
  {
    var t := Trim(s);
    if JsLength(t) < min then Err(TooShort(min))
    else if JsLength(t) > max then Err(TooLong(max))
    else Ok(t)
  }

  /** Whatever `CheckLength` accepts, it accepts again unchanged. */
  lemma CheckLengthIdempotent(s: string, min: nat, max: nat, v: string)
    requires CheckLength(s, min, max) == Ok(v)
    ensures CheckLength(v, min, max) == Ok(v)
  {
    assert v == Trim(s);
    TrimIdempotent(s);
    assert Trim(v) == v && min <= JsLength(v) <= max;
  }

  /** `messageSchema`: a chat message is 1 to 5000 characters once trimmed. */
  function ValidateMessage(content: string): (r: Result<string, Issue>)
    ensures r.Ok? <==> 1 <= JsLength(Trim(content)) <= 5000
    ensures r.Ok? ==> r.value == Trim(content)
  {
    CheckLength(content, 1, 5000)
  }

  /** A message of white space only is refused as too short. */
  lemma BlankMessageRejected(content: string)
    requires AllSpace(content)
    ensures ValidateMessage(content) == Err(TooShort(1))
  {
    TrimEmptyIff(content);
  }

  /** A message that keeps more than 5000 characters after trimming is refused as too long. */
  lemma LongMessageRejected(content: string)
    requires |Trim(content)| > 5000
    ensures ValidateMessage(content) == Err(TooLong(5000))
  {
  }

  /** A validated message validates again to itself. */
  lemma MessageIdempotent(content: string, v: string)
    requires ValidateMessage(content) == Ok(v)
    ensures ValidateMessage(v) == Ok(v)
  {
    CheckLengthIdempotent(content, 1, 5000, v);
  }

  predicate IsUsernameChar(c: char) {
    'a' <= c <= 'z' || 'A' <= c <= 'Z' || '0' <= c <= '9' || c == '_'
  }

  /** `usernameSchema`: 3 to 30 characters once trimmed, all of them letters, digits or `_`. */
  function ValidateUsername(name: string): (r: Result<string, Issue>)
    ensures r.Ok? <==>
      3 <= JsLength(Trim(name)) <= 30 && forall i :: 0 <= i < |Trim(name)| ==> IsUsernameChar(Trim(name)[i])
    ensures r.Ok? ==> r.value == Trim(name)
  {
    var checked := CheckLength(name, 3, 30);
    if checked.Err? then checked
    else if forall i :: 0 <= i < |checked.value| ==> IsUsernameChar(checked.value[i]) then checked
    else Err(BadCharacters)
  }

  /** Every character of an accepted username is one code unit, so its length is its size. */
  lemma {:induction false} UsernameCharsLength(s: string)
    requires forall i :: 0 <= i < |s| ==> IsUsernameChar(s[i])
    ensures JsLength(s) == |s|
  {
    if s != [] {
      UsernameCharsLength(s[1..]);
    }
  }

  /** An accepted username has 3 to 30 characters and no white space anywhere. */
  lemma UsernameShape(name: string)
    requires ValidateUsername(name).Ok?
    ensures 3 <= |ValidateUsername(name).value| <= 30
    ensures forall i :: 0 <= i < |ValidateUsername(name).value| ==> !IsSpace(ValidateUsername(name).value[i])
  {
    UsernameCharsLength(Trim(name));
  }

  /** A validated username validates again to itself. */
  lemma UsernameIdempotent(name: string, v: string)
    requires ValidateUsername(name) == Ok(v)
    ensures ValidateUsername(v) == Ok(v)
  {
    TrimIdempotent(name);
    assert Trim(v) == v;
  }

  /**
   * `channelNameSchema`, which `groupNameSchema` is the same object as: 3 to 100
   * characters once trimmed.
   */
  function ValidateName(name: string): (r: Result<string, Issue>)
    ensures r.Ok? <==> 3 <= JsLength(Trim(name)) <= 100
    ensures r.Ok? ==> r.value == Trim(name)
  {
    CheckLength(name, 3, 100)
  }

  /** `descriptionSchema`: at most 500 characters once trimmed; an empty description is fine. */
  function ValidateDescription(text: string): (r: Result<string, Issue>)
    ensures r.Ok? <==> JsLength(Trim(text)) <= 500
    ensures r.Ok? ==> r.value == Trim(text)
  {
    var r := CheckLength(text, 0, 500);
    assert r.Ok? <==> JsLength(Trim(text)) <= 500;
    r
  }

  /** Leaving the description blank is accepted, as the empty string. */
  lemma BlankDescriptionAccepted(text: string)
    requires AllSpace(text)
    ensures ValidateDescription(text) == Ok("")
  {
    TrimEmptyIff(text);
  }
}

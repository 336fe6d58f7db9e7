/** The nickname form of src/SetNickname.jsx: the two checks on the trimmed input, and the
    submit handler that sends the trimmed nickname to the auth service with a `loading`
    flag raised while the call is outstanding. The service's answer is a parameter. */
module Nickname {
  import opened Wrappers
  import opened JsText

  /** The shortest nickname the handler accepts, counted after trimming. */
  const MinLength := 2
  /** The input's `maxLength`: it limits what can be typed, not what the handler accepts. */
  const InputMaxLength := 20

  /** What the user is told. */
  datatype Notice = BlankRejected | TooShortRejected | Saved | Failed(message: string)

  // The blank check `!nickname.trim()` is `AllWhitespace(nickname)`: by the contract of
  // `Trim`, the trimmed text is empty exactly when the input is all whitespace.

  /** `nickname.trim().length < 2`. */
  predicate IsTooShort(nickname: string) {
    |Trim(nickname)| < MinLength
  }

  /** The nickname the submit handler sends for `nickname`, or `None` when one of the two
      checks refuses it. What is sent is the trimmed text, which is at least two long and
      has no whitespace at either end; nothing is sent exactly when the trimmed text is
      shorter than two, blank input included. */
  function Submitted(nickname: string): (r: Option<string>)
    ensures r != None ==> r.value == Trim(nickname) && |r.value| >= MinLength
    ensures r != None ==> !IsWhitespace(r.value[0]) && !IsWhitespace(r.value[|r.value| - 1])
    ensures r == None <==> |Trim(nickname)| < MinLength
    ensures AllWhitespace(nickname) ==> r == None
  {
    var trimmed := Trim(nickname);
    assert AllWhitespace(nickname) == (trimmed == []) && IsTooShort(nickname) == (|trimmed| < MinLength);
    if AllWhitespace(nickname) || IsTooShort(nickname) then None else Some(trimmed)
  }

  /** The handler sets no upper bound; with the input's `maxLength` respected, an accepted
      nickname is between 2 and 20 long. */
  lemma AcceptedLengthWithinInputCap(nickname: string)
    requires |nickname| <= InputMaxLength && Submitted(nickname) != None
    ensures MinLength <= |Submitted(nickname).value| <= InputMaxLength
  {
  }

  /** Without `maxLength`, a longer nickname is sent whole. */
  lemma NoUpperBound()
    ensures Submitted("abcdefghijklmnopqrstu") == Some("abcdefghijklmnopqrstu")
  {
    var s := "abcdefghijklmnopqrstu";
    assert !IsWhitespace(s[0]) && !IsWhitespace(s[|s| - 1]);
    TrimOfTrimmed(s);
  }

  class SetNickname {
    var nickname: string
    var loading: bool

    constructor (initialNickname: string)
      ensures nickname == initialNickname && !loading
    {
      nickname, loading := initialNickname, false;
    }

    /** The input's `onChange`. */
    method EditNickname(value: string)
      modifies this`nickname
      ensures nickname == value
    {
      nickname := value;
    }

    /** `handleSubmit` up to its `await`: a blank or too short nickname is refused before
        any call and `loading` is left alone; otherwise `loading` is raised and the trimmed
        nickname is sent. */
    method BeginSubmit() returns (sent: Option<string>, notices: seq<Notice>)
      modifies this`loading
      ensures sent == Submitted(nickname)
      ensures AllWhitespace(nickname) ==> notices == [BlankRejected] && loading == old(loading)
      ensures !AllWhitespace(nickname) && IsTooShort(nickname) ==>
        notices == [TooShortRejected] && loading == old(loading)
      ensures sent != None ==> notices == [] && loading
    {
      if AllWhitespace(nickname) {
        sent, notices := None, [BlankRejected];
        return;
      }
      if IsTooShort(nickname) {
        sent, notices := None, [TooShortRejected];
        return;
      }
      loading := true;
      sent, notices := Some(Trim(nickname)), [];
    }

    /** `handleSubmit` after the update answers: `onComplete` is called exactly when the
        update reported no error, and the `finally` clears `loading` either way. */
    method SettleSubmit(response: Result<()>) returns (completed: bool, notices: seq<Notice>)
      modifies this`loading
      ensures !loading
      ensures completed <==> response.Ok?
      ensures notices == if response.Ok? then [Saved] else [Failed(response.error)]
    {
      match response {
        case Ok(_) =>
          completed, notices := true, [Saved];
        case Err(message) =>
          completed, notices := false, [Failed(message)];
      }
      loading := false;
    }

    /** `handleSubmit` as one step. */
    method HandleSubmit(response: Result<()>) returns (sent: Option<string>, completed: bool, notices: seq<Notice>)
      modifies this`loading
      ensures sent == Submitted(nickname)
      ensures completed <==> sent != None && response.Ok?
      ensures sent == None ==> loading == old(loading)
      ensures sent != None ==> !loading
      ensures AllWhitespace(nickname) ==> notices == [BlankRejected]
      ensures !AllWhitespace(nickname) && IsTooShort(nickname) ==> notices == [TooShortRejected]
      ensures sent != None ==> notices == if response.Ok? then [Saved] else [Failed(response.error)]
    {
      sent, notices := BeginSubmit();
      completed := false;
      if sent != None {
        var settled;
        completed, settled := SettleSubmit(response);
        notices := notices + settled;
      }
    }
  }
}

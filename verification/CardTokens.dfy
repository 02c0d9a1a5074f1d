/** The callback tokens of IM cards: printing an action and parsing it back. */
module CardTokens {
  import opened Wrappers
  import opened Text
  import opened Utf8
  import opened Base64Url

  datatype Kind = Approve | Reject | OpenUrl | SubmitCommand

  datatype Action = Action(
    kind: Kind, caption: Option<string>, value: Option<string>, url: Option<string>, command: Option<string>)

  function Approval(kind: Kind, id: string): Action { Action(kind, None, Some(id), None, None) }

  function Verb(kind: Kind): Option<string> {
    match kind
    case Approve => Some("approve")
    case Reject => Some("reject")
    case _ => None
  }

  /** Trimmed, and present only when something is left. */
  function NonBlank(s: Option<string>): Option<string> {
    if s.Some? && Trim(s.value) != [] then Some(Trim(s.value)) else None
  }

  function ApprovalId(a: Action): Option<string> {
    if a.kind.Approve? || a.kind.Reject? then NonBlank(a.value) else None
  }

  function CallbackToken(a: Action, separator: char): Option<string> {
    match a.kind
    case OpenUrl => None
    case SubmitCommand =>
      var command := NonBlank(a.command);
      if command.None? then None else Some("command" + [separator] + Encode64(Encode(command.value)))
    case _ =>
      var id := ApprovalId(a);
      if id.None? then None else Some(Verb(a.kind).value + [separator] + id.value)
  }

  function ToRuntimeCommand(a: Action): Option<string> {
    match a.kind
    case OpenUrl => None
    case SubmitCommand => NonBlank(a.command)
    case _ =>
      var id := ApprovalId(a);
      if id.None? then None else Some("/" + Verb(a.kind).value + " " + id.value)
  }

  function AsciiLower(c: char): char {
    if 'A' <= c <= 'Z' then ((c as int) + 32) as char else c
  }

  predicate EqualIgnoringCase(s: string, t: string) {
    |s| == |t| && forall i :: 0 <= i < |s| ==> AsciiLower(s[i]) == AsciiLower(t[i])
  }

  /** The prefix is ASCII, so comparing its bytes and comparing its characters is the same. */
  predicate HasPrefixIgnoringCase(s: string, prefix: string) {
    |s| > |prefix| && EqualIgnoringCase(s[..|prefix|], prefix)
  }

  const APPROVAL_PREFIXES: seq<(string, Kind)> := [
    ("approve:", Approve), ("approve_", Approve), ("approve-", Approve),
    ("reject:", Reject), ("reject_", Reject), ("reject-", Reject)]

  function ParseApproval(trimmed: string, prefixes: seq<(string, Kind)>): Option<Action> {
    if prefixes == [] then None
    else
      var (prefix, kind) := prefixes[0];
      if HasPrefixIgnoringCase(trimmed, prefix) && Trim(trimmed[|prefix|..]) != [] then
        Some(Approval(kind, Trim(trimmed[|prefix|..])))
      else ParseApproval(trimmed, prefixes[1..])
  }

  function ParseCommand(encoded: string): Option<Action> {
    var bytes := Decode64(Trim(encoded));
    if bytes.None? then None
    else
      var command := Decode(bytes.value);
      if command.None? || Trim(command.value) == [] then None
      else Some(Action(SubmitCommand, None, None, None, Some(Trim(command.value))))
  }

  function ParseToken(value: string): Option<Action> {
    var trimmed := Trim(value);
    var approval := ParseApproval(trimmed, APPROVAL_PREFIXES);
    if approval.Some? then approval
    else if "command:" <= trimmed then ParseCommand(trimmed[8..])
    else if "command_" <= trimmed then ParseCommand(trimmed[8..])
    else if "command-" <= trimmed then ParseCommand(trimmed[8..])
    else None
  }

  predicate IsSeparator(c: char) { c == ':' || c == '_' || c == '-' }

  // ----- printing, then parsing

  lemma TokenIsTrimmed(head: string, separator: char, tail: string)
    requires head != [] && !IsWhitespace(head[0]) && tail != [] && !IsWhitespace(tail[|tail| - 1])
    ensures Trim(head + [separator] + tail) == head + [separator] + tail
  {
    TrimIsTrimmed(head + [separator] + tail);
  }

  lemma PrefixOfToken(head: string, separator: char, tail: string, prefix: string)
    requires |prefix| == |head| + 1 && tail != []
    ensures HasPrefixIgnoringCase(head + [separator] + tail, prefix)
         <==> EqualIgnoringCase(head, prefix[..|head|]) && AsciiLower(separator) == AsciiLower(prefix[|head|])
  {
    var token := head + [separator] + tail;
    var front := token[..|prefix|];
    assert front == head + [separator];
    assert EqualIgnoringCase(front, prefix) ==> AsciiLower(front[|head|]) == AsciiLower(prefix[|head|]);
    forall i | 0 <= i < |head| ensures front[i] == head[i] && prefix[..|head|][i] == prefix[i] {}
  }

  /** A token of an approval parses to that approval exactly when the separator is one of the three. */
  lemma ApprovalTokenParses(kind: Kind, separator: char, id: string)
    requires (kind.Approve? || kind.Reject?) && id != [] && IsTrimmed(id)
    ensures
      ParseToken(Verb(kind).value + [separator] + id) == if IsSeparator(separator) then Some(Approval(kind, id)) else None
  {
    var head := Verb(kind).value;
    var token := head + [separator] + id;
    TokenIsTrimmed(head, separator, id);
    TrimIsTrimmed(id);
    assert token[|head| + 1..] == id;
    if kind.Approve? {
      ApproveParses(separator, id);
    } else {
      RejectParses(separator, id);
    }
    assert token[0] == head[0];
    assert !("command:" <= token) && !("command_" <= token) && !("command-" <= token);
  }

  lemma ApproveParses(separator: char, id: string)
    requires id != [] && IsTrimmed(id)
    ensures
      ParseApproval("approve" + [separator] + id, APPROVAL_PREFIXES)
      == if IsSeparator(separator) then Some(Approval(Approve, id)) else None
  {
    var token := "approve" + [separator] + id;
    TrimIsTrimmed(id);
    assert token[8..] == id;
    PrefixOfToken("approve", separator, id, "approve:");
    PrefixOfToken("approve", separator, id, "approve_");
    PrefixOfToken("approve", separator, id, "approve-");
    WrongVerb(token, "reject:");
    WrongVerb(token, "reject_");
    WrongVerb(token, "reject-");
    UnfoldPrefixes(token);
  }

  lemma RejectParses(separator: char, id: string)
    requires id != [] && IsTrimmed(id)
    ensures
      ParseApproval("reject" + [separator] + id, APPROVAL_PREFIXES)
      == if IsSeparator(separator) then Some(Approval(Reject, id)) else None
  {
    var token := "reject" + [separator] + id;
    TrimIsTrimmed(id);
    assert token[7..] == id;
    PrefixOfToken("reject", separator, id, "reject:");
    PrefixOfToken("reject", separator, id, "reject_");
    PrefixOfToken("reject", separator, id, "reject-");
    WrongVerb(token, "approve:");
    WrongVerb(token, "approve_");
    WrongVerb(token, "approve-");
    UnfoldPrefixes(token);
  }

  /** The verbs of approvals are read in any case and with any white space around the token and its id. */
  lemma {:induction false} ApprovalsParseInAnyCase(value: string, head: string, separator: char, tail: string, kind: Kind)
    requires IsSeparator(separator) && Trim(value) == head + [separator] + tail && Trim(tail) != []
    requires if kind.Approve? then EqualIgnoringCase(head, "approve") else kind.Reject? && EqualIgnoringCase(head, "reject")
    ensures ParseToken(value) == Some(Action(kind, None, Some(Trim(tail)), None, None))
  {
    hide Trim, ParseCommand;
    var token := Trim(value);
    assert token[|head| + 1..] == tail && token[0] == head[0];
    assert tail != [] by { TrimNeedsText(tail); }
    UnfoldPrefixes(token);
    if kind.Approve? {
      PrefixOfToken(head, separator, tail, "approve:");
      PrefixOfToken(head, separator, tail, "approve_");
      PrefixOfToken(head, separator, tail, "approve-");
    } else {
      PrefixOfToken(head, separator, tail, "reject:");
      PrefixOfToken(head, separator, tail, "reject_");
      PrefixOfToken(head, separator, tail, "reject-");
      WrongVerb(token, "approve:");
      WrongVerb(token, "approve_");
      WrongVerb(token, "approve-");
    }
  }

  lemma TrimNeedsText(s: string)
    ensures Trim(s) != [] ==> s != []
  {}

  lemma WrongVerb(token: string, prefix: string)
    requires token != [] && prefix != [] && AsciiLower(token[0]) != AsciiLower(prefix[0])
    ensures !HasPrefixIgnoringCase(token, prefix)
  {
    if |token| > |prefix| {
      assert token[..|prefix|][0] == token[0];
    }
  }

  /** The result of trying one prefix. */
  function TryPrefix(token: string, prefix: string, kind: Kind): Option<Action> {
    if HasPrefixIgnoringCase(token, prefix) && Trim(token[|prefix|..]) != []
    then Some(Approval(kind, Trim(token[|prefix|..]))) else None
  }

  function OrElse(a: Option<Action>, b: Option<Action>): Option<Action> { if a.Some? then a else b }

  /** The loop over the prefixes, written out. */
  lemma UnfoldPrefixes(token: string)
    ensures
      ParseApproval(token, APPROVAL_PREFIXES)
      == OrElse(TryPrefix(token, "approve:", Approve), OrElse(TryPrefix(token, "approve_", Approve),
         OrElse(TryPrefix(token, "approve-", Approve), OrElse(TryPrefix(token, "reject:", Reject),
         OrElse(TryPrefix(token, "reject_", Reject), TryPrefix(token, "reject-", Reject))))))
  {
    hide HasPrefixIgnoringCase, Trim;
    var ps := APPROVAL_PREFIXES;
    assert ps[1..][0] == ps[1] && ps[1..][1..] == ps[2..];
    assert ps[2..][0] == ps[2] && ps[2..][1..] == ps[3..];
    assert ps[3..][0] == ps[3] && ps[3..][1..] == ps[4..];
    assert ps[4..][0] == ps[4] && ps[4..][1..] == ps[5..];
    assert ps[5..][0] == ps[5] && ps[5..][1..] == [];
    assert ParseApproval(token, ps[5..]) == TryPrefix(token, "reject-", Reject);
    assert ParseApproval(token, ps[4..]) == OrElse(TryPrefix(token, "reject_", Reject), ParseApproval(token, ps[5..]));
    assert ParseApproval(token, ps[3..]) == OrElse(TryPrefix(token, "reject:", Reject), ParseApproval(token, ps[4..]));
    assert ParseApproval(token, ps[2..]) == OrElse(TryPrefix(token, "approve-", Approve), ParseApproval(token, ps[3..]));
    assert ParseApproval(token, ps[1..]) == OrElse(TryPrefix(token, "approve_", Approve), ParseApproval(token, ps[2..]));
  }

  lemma CommandTokenParses(separator: char, command: string)
    requires command != [] && IsTrimmed(command)
    ensures
      ParseToken("command" + [separator] + Encode64(Encode(command)))
      == if IsSeparator(separator) then Some(Action(SubmitCommand, None, None, None, Some(command))) else None
  {
    hide Encode64, Decode64, EncodeChar, DecodeHead, IsWhitespace, ParseApproval;
    var tail := Encode64(Encode(command));
    var token := "command" + [separator] + tail;
    EncodeStartsOnBoundary(command);
    Encode64HasNoSpace(Encode(command));
    NotSpace();
    TokenIsTrimmed("command", separator, tail);
    TrimIsTrimmed(tail);
    TrimIsTrimmed(command);
    Decode64Encode64(Encode(command));
    DecodeEncode(command);
    assert token[0] == 'c' && token[7] == separator && token[8..] == tail;
    CommandIsNoApproval(token);
    if IsSeparator(separator) {
      assert token[..8] == "command" + [separator];
      assert "command" + [separator] <= token;
    } else {
      assert "command:"[7] == ':' && "command_"[7] == '_' && "command-"[7] == '-';
    }
  }

  lemma CommandIsNoApproval(token: string)
    requires token != [] && token[0] == 'c'
    ensures ParseApproval(token, APPROVAL_PREFIXES) == None
  {
    WrongVerb(token, "approve:");
    WrongVerb(token, "approve_");
    WrongVerb(token, "approve-");
    WrongVerb(token, "reject:");
    WrongVerb(token, "reject_");
    WrongVerb(token, "reject-");
    UnfoldPrefixes(token);
  }

  lemma NotSpace()
    ensures !IsWhitespace("command"[0])
  {}

  /** Callback tokens round-trip: an action that prints a token with one of the three separators parses
      back to the same kind and the same runtime command; with any other separator it does not parse. */
  lemma {:induction false} TokenRoundTrip(a: Action, separator: char)
    requires CallbackToken(a, separator).Some?
    ensures
      var parsed := ParseToken(CallbackToken(a, separator).value);
      if IsSeparator(separator)
      then parsed.Some? && parsed.value.kind == a.kind && ToRuntimeCommand(parsed.value) == ToRuntimeCommand(a)
      else parsed.None?
  {
    hide Trim, ParseToken, Encode64, Encode;
    if a.kind.SubmitCommand? {
      var command := Trim(a.command.value);
      TrimIsTrimmed(a.command.value);
      TrimIsTrimmed(command);
      CommandTokenParses(separator, command);
    } else {
      var id := Trim(a.value.value);
      TrimIsTrimmed(a.value.value);
      TrimIsTrimmed(id);
      ApprovalTokenParses(a.kind, separator, id);
    }
  }

  /** What pressing a button does, from the token on: an approval token becomes the slash command of its own
      verb, and a command token becomes exactly its command. */
  lemma {:induction false} TokensMeanTheirCommands(separator: char, text: string)
    requires IsSeparator(separator) && text != [] && IsTrimmed(text)
    ensures
      var approve, reject := ParseToken("approve" + [separator] + text), ParseToken("reject" + [separator] + text);
      var command := ParseToken("command" + [separator] + Encode64(Encode(text)));
      && approve.Some? && ToRuntimeCommand(approve.value) == Some("/approve " + text)
      && reject.Some? && ToRuntimeCommand(reject.value) == Some("/reject " + text)
      && command.Some? && ToRuntimeCommand(command.value) == Some(text)
  {
    hide Trim, ParseToken, Encode64, Encode;
    TrimIsTrimmed(text);
    ApprovalTokenParses(Approve, separator, text);
    ApprovalTokenParses(Reject, separator, text);
    CommandTokenParses(separator, text);
    assert "/" + "approve" + " " == "/approve " && "/" + "reject" + " " == "/reject ";
  }

  /** What an action prints and does, by its kind. A token is printed if and only if there is a runtime
      command, and both carry the trimmed text of the field that the kind is about. */
  lemma {:induction false} ActionsMeanTheirText(a: Action, separator: char)
    ensures
      var field := if a.kind.SubmitCommand? then a.command else if a.kind.OpenUrl? then None else a.value;
      var token, command := CallbackToken(a, separator), ToRuntimeCommand(a);
      if field.None? || Trim(field.value) == [] then token == None && command == None
      else
        var text := Trim(field.value);
        match a.kind
        case Approve => token == Some("approve" + [separator] + text) && command == Some("/approve " + text)
        case Reject => token == Some("reject" + [separator] + text) && command == Some("/reject " + text)
        case SubmitCommand => token == Some("command" + [separator] + Encode64(Encode(text))) && command == Some(text)
        case OpenUrl => false
  {
    hide Trim, Encode64, Encode;
    assert "/" + "approve" + " " == "/approve " && "/" + "reject" + " " == "/reject ";
  }

  /** What a parse can return: an approval with a trimmed id, or a trimmed command, and nothing else. */
  predicate IsNormal(a: Action) {
    match a.kind
    case OpenUrl => false
    case SubmitCommand =>
      a.command.Some? && a.command.value != [] && IsTrimmed(a.command.value)
      && a == Action(SubmitCommand, None, None, None, a.command)
    case _ => a.value.Some? && a.value.value != [] && IsTrimmed(a.value.value) && a == Approval(a.kind, a.value.value)
  }

  lemma {:induction false} ParsedIsNormal(value: string)
    requires ParseToken(value).Some?
    ensures IsNormal(ParseToken(value).value)
  {
    hide TryPrefix, ParseCommand, ParseApproval, Trim, IsNormal;
    var trimmed := Trim(value);
    UnfoldPrefixes(trimmed);
    ApprovalIsNormal(trimmed, "approve:", Approve);
    ApprovalIsNormal(trimmed, "approve_", Approve);
    ApprovalIsNormal(trimmed, "approve-", Approve);
    ApprovalIsNormal(trimmed, "reject:", Reject);
    ApprovalIsNormal(trimmed, "reject_", Reject);
    ApprovalIsNormal(trimmed, "reject-", Reject);
    if |trimmed| >= 8 {
      CommandIsNormal(trimmed[8..]);
    }
  }

  lemma ApprovalIsNormal(token: string, prefix: string, kind: Kind)
    requires kind.Approve? || kind.Reject?
    ensures TryPrefix(token, prefix, kind).Some? ==> IsNormal(TryPrefix(token, prefix, kind).value)
  {
    if TryPrefix(token, prefix, kind).Some? {
      TrimIsTrimmed(token[|prefix|..]);
    }
  }

  lemma CommandIsNormal(encoded: string)
    ensures ParseCommand(encoded).Some? ==> IsNormal(ParseCommand(encoded).value)
  {
    if ParseCommand(encoded).Some? {
      TrimIsTrimmed(Decode(Decode64(Trim(encoded)).value).value);
    }
  }

  /** Normal forms: printing what a token parses to and parsing again gives exactly the same action. */
  lemma {:induction false} ParsePrintParse(value: string, separator: char)
    requires ParseToken(value).Some? && IsSeparator(separator)
    ensures
      var a := ParseToken(value).value;
      CallbackToken(a, separator).Some? && ParseToken(CallbackToken(a, separator).value) == Some(a)
  {
    hide Trim, ParseToken, Encode64, Encode, IsTrimmed;
    ParsedIsNormal(value);
    var a := ParseToken(value).value;
    if a.kind.SubmitCommand? {
      var command := a.command.value;
      TrimIsTrimmed(command);
      CommandTokenParses(separator, command);
    } else {
      var id := a.value.value;
      TrimIsTrimmed(id);
      ApprovalTokenParses(a.kind, separator, id);
    }
  }

  // ----- the prefix test, on bytes as the original makes it

  predicate IsAscii(s: string) { forall i :: 0 <= i < |s| ==> s[i] as int < 0x80 }

  function LowerByte(b: Byte): Byte { if 65 <= b <= 90 then b + 32 else b }

  /** More bytes than the prefix, a character boundary after that many, and equal up to ASCII case. */
  predicate HasBytePrefix(b: seq<Byte>, prefix: string)
    requires IsAscii(prefix)
  {
    |b| > |prefix| && IsBoundary(b, |prefix|)
    && forall i :: 0 <= i < |prefix| ==> LowerByte(b[i]) == LowerByte(prefix[i] as int)
  }

  lemma {:induction false} PrefixTestOnBytes(s: string, prefix: string)
    requires IsAscii(prefix)
    ensures HasBytePrefix(Encode(s), prefix) <==> HasPrefixIgnoringCase(s, prefix)
    decreases |prefix|
  {
    if prefix != [] && s != [] {
      var head, rest := EncodeChar(s[0]), Encode(s[1..]);
      var b := Encode(s);
      assert b == head + rest;
      LowerAgrees(s[0], prefix[0]);
      if LowerByte(b[0]) == LowerByte(prefix[0] as int) {
        assert |head| == 1;
        PrefixTestOnBytes(s[1..], prefix[1..]);
        BytePrefixStep(head[0], rest, prefix);
        CharPrefixStep(s, prefix);
      } else {
        WrongVerb(s, prefix);
      }
    } else if prefix == [] {
      EncodeStartsOnBoundary(s);
    }
  }

  lemma LowerAgrees(c: char, p: char)
    requires p as int < 0x80
    ensures LowerByte(EncodeChar(c)[0]) == LowerByte(p as int) <==> AsciiLower(c) == AsciiLower(p)
    ensures AsciiLower(c) == AsciiLower(p) ==> |EncodeChar(c)| == 1
  {}

  lemma BytePrefixStep(b0: Byte, rest: seq<Byte>, prefix: string)
    requires IsAscii(prefix) && prefix != [] && LowerByte(b0) == LowerByte(prefix[0] as int)
    requires rest != [] ==> !IsContinuation(rest[0])
    ensures HasBytePrefix([b0] + rest, prefix) <==> HasBytePrefix(rest, prefix[1..])
  {
    var b := [b0] + rest;
    assert forall i :: 0 <= i < |rest| ==> b[i + 1] == rest[i];
    if HasBytePrefix(rest, prefix[1..]) {
      forall i | 0 <= i < |prefix| ensures LowerByte(b[i]) == LowerByte(prefix[i] as int) {
        if i > 0 {
          assert LowerByte(rest[i - 1]) == LowerByte(prefix[1..][i - 1] as int);
        }
      }
    }
    if HasBytePrefix(b, prefix) {
      forall i | 0 <= i < |prefix| - 1 ensures LowerByte(rest[i]) == LowerByte(prefix[1..][i] as int) {
        assert LowerByte(b[i + 1]) == LowerByte(prefix[i + 1] as int);
      }
    }
  }

  lemma CharPrefixStep(s: string, prefix: string)
    requires s != [] && prefix != [] && AsciiLower(s[0]) == AsciiLower(prefix[0])
    ensures HasPrefixIgnoringCase(s, prefix) <==> HasPrefixIgnoringCase(s[1..], prefix[1..])
  {
    if |s| > |prefix| {
      var front, back := s[..|prefix|], s[1..][..|prefix| - 1];
      assert forall i :: 0 <= i < |back| ==> back[i] == front[i + 1] && prefix[1..][i] == prefix[i + 1];
      if EqualIgnoringCase(back, prefix[1..]) {
        forall i | 0 <= i < |front| ensures AsciiLower(front[i]) == AsciiLower(prefix[i]) {
          if i > 0 {
            assert AsciiLower(back[i - 1]) == AsciiLower(prefix[1..][i - 1]);
          }
        }
      }
    }
  }
}

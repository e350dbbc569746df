/** Extraction of the actor of a signed event: the namespace prefix is what makes
    the scopes of one actor distinct. */
module ActorIdentity {
  import opened Wrappers
  import opened AdmissionSpec
  import opened Text

  datatype Result<+T> = Ok(value: T) | Rejected(code: string)

  /** A JSON value as far as the extraction looks at it. */
  datatype Json = Missing | Str(text: string) | Other

  datatype SenderFields = SenderFields(openId: Json, userId: Json, unionId: Json)

  /** `None` stands for a field that is absent or not a dictionary. */
  datatype Event = Event(chatId: Option<Json>, senderId: Option<SenderFields>)

  predicate ValueChar(c: char) {
    'A' <= c <= 'Z' || 'a' <= c <= 'z' || '0' <= c <= '9' || c in {'.', '_', '-'}
  }

  predicate ActorValue(s: string) {
    1 <= |s| <= 256 && forall i :: 0 <= i < |s| ==> ValueChar(s[i])
  }

  function ValidatedActorValue(value: Json, code: string): (r: Result<string>)
    ensures r.Ok? ==> ActorValue(r.value)
  {
    if value.Str? && ActorValue(Strip(value.text)) then Ok(Strip(value.text)) else Rejected(code)
  }

  function KindId(kind: string, raw: Json): (r: Result<seq<string>>)
    ensures r.Ok? ==> |r.value| <= 1 && forall id :: id in r.value ==> kind + ":" <= id
    ensures r.Ok? && r.value == [] ==> raw == Missing || raw == Str("")
  {
    if raw == Missing || raw == Str("") then Ok([])
    else match ValidatedActorValue(raw, "event_sender_invalid")
    case Ok(v) => Ok([kind + ":" + v])
    case Rejected(code) => Rejected(code)
  }

  lemma PrefixesDiffer(a: string, b: string)
    requires ("open_id:" <= a && "user_id:" <= b) || ("open_id:" <= a && "union_id:" <= b)
          || ("user_id:" <= a && "union_id:" <= b)
    ensures a != b
  {
    assert a[0] != b[0] || a[1] != b[1];
  }

  lemma NamespacesApart(a: seq<string>, b: seq<string>, c: seq<string>)
    requires |a| <= 1 && |b| <= 1 && |c| <= 1
    requires forall id :: id in a ==> "open_id:" <= id
    requires forall id :: id in b ==> "user_id:" <= id
    requires forall id :: id in c ==> "union_id:" <= id
    ensures forall i, j :: 0 <= i < j < |a + b + c| ==> (a + b + c)[i] != (a + b + c)[j]
  {
    forall i, j | 0 <= i < j < |a + b + c|
      ensures (a + b + c)[i] != (a + b + c)[j]
    {
      var all := a + b + c;
      var x, y := all[i], all[j];
      if i < |a| {
        assert x == a[i] && x in a;
      } else {
        assert x == b[i - |a|] && x in b;
      }
      if j < |a + b| {
        assert y == b[j - |a|] && y in b;
      } else {
        assert y == c[j - |a + b|] && y in c;
      }
      PrefixesDiffer(x, y);
    }
  }

  function CanonicalIds(f: SenderFields): (r: Result<seq<string>>)
    ensures r.Ok? ==> |r.value| <= 3
    ensures r.Ok? ==> forall i, j :: 0 <= i < j < |r.value| ==> r.value[i] != r.value[j]
  {
    match KindId("open_id", f.openId)
    case Rejected(code) => Rejected(code)
    case Ok(a) =>
      match KindId("user_id", f.userId)
      case Rejected(code) => Rejected(code)
      case Ok(b) =>
        match KindId("union_id", f.unionId)
        case Rejected(code) => Rejected(code)
        case Ok(c) =>
          assert "open_id" + ":" == "open_id:" && "user_id" + ":" == "user_id:" && "union_id" + ":" == "union_id:";
          NamespacesApart(a, b, c);
          Ok(a + b + c)
  }

  /** Every extracted actor has between one and three distinct sender scopes and
      a chat, so the gate never sees one scope twice in a call. */
  function ExtractEventActor(event: Option<Event>): (r: Result<Actor>)
    ensures r.Ok? ==> r.value.senderIds != [] && ActorValue(r.value.chatId)
    ensures r.Ok? ==> forall cost, now :: cost >= 1 ==> Admissible(Acquire(r.value, cost, now))
    ensures r.Ok? ==> var sc := r.value.Scopes();
                      |sc| <= 5 && forall i, j :: 0 <= i < j < |sc| ==> sc[i] != sc[j]
  {
    match event
    case None => Rejected("event_actor_missing")
    case Some(e) =>
      match e.chatId
      case None => Rejected("event_message_missing")
      case Some(rawChat) =>
        match ValidatedActorValue(rawChat, "event_chat_id_invalid")
        case Rejected(code) => Rejected(code)
        case Ok(chat) =>
          match e.senderId
          case None => Rejected("event_sender_missing")
          case Some(fields) =>
            match CanonicalIds(fields)
            case Rejected(code) => Rejected(code)
            case Ok(ids) => if ids == [] then Rejected("event_sender_missing") else Ok(ActorIds(ids, chat))
  }

  // ----------------------------------------------------- what is extracted, exactly

  /** A value is accepted exactly when, stripped, it has one to 256 characters from
      letters, digits, dot, underscore and hyphen; and the stripped value is used. */
  lemma ValueIff(value: Json, code: string)
    ensures var r := ValidatedActorValue(value, code);
            if value.Str? && 1 <= |Strip(value.text)| <= 256 &&
               forall i :: 0 <= i < |Strip(value.text)| ==>
                 var c := Strip(value.text)[i];
                 'a' <= c <= 'z' || 'A' <= c <= 'Z' || '0' <= c <= '9' || c == '.' || c == '_' || c == '-'
            then r == Ok(Strip(value.text)) else r == Rejected(code)
  {
  }

  /** A sender field that is absent, null or empty is skipped. */
  predicate Skipped(raw: Json) {
    raw == Missing || raw == Str("")
  }

  predicate Usable(raw: Json) {
    Skipped(raw) || ValidatedActorValue(raw, "event_sender_invalid").Ok?
  }

  function IdOf(kind: string, raw: Json): seq<string> {
    if !Skipped(raw) && raw.Str? then [kind + ":" + Strip(raw.text)] else []
  }

  /** Main result.  What is extracted: the stripped chat, and the stripped sender ids
      that are there, each behind its namespace, in the order open, user, union. */
  lemma ExtractedIff(event: Option<Event>)
    ensures var r := ExtractEventActor(event);
            r.Ok? <==>
            && event.Some? && event.value.chatId.Some? && event.value.senderId.Some?
            && ValidatedActorValue(event.value.chatId.value, "").Ok?
            && var f := event.value.senderId.value;
               && Usable(f.openId) && Usable(f.userId) && Usable(f.unionId)
               && !(Skipped(f.openId) && Skipped(f.userId) && Skipped(f.unionId))
    ensures var r := ExtractEventActor(event);
            r.Ok? ==>
              && event.value.chatId.value.Str? && r.value.chatId == Strip(event.value.chatId.value.text)
              && var f := event.value.senderId.value;
                 r.value.senderIds ==
                   IdOf("open_id", f.openId) + IdOf("user_id", f.userId) + IdOf("union_id", f.unionId)
  {
    hide Strip, ActorValue, ActorIds.Scopes;
  }

  /** Which code a rejection carries: what is missing or invalid first. */
  lemma RejectedWith(event: Option<Event>)
    ensures var r := ExtractEventActor(event);
            && (event.None? ==> r == Rejected("event_actor_missing"))
            && (event.Some? && event.value.chatId.None? ==> r == Rejected("event_message_missing"))
            && (event.Some? && event.value.chatId.Some? ==>
                  var chat, sender := event.value.chatId.value, event.value.senderId;
                  if ValidatedActorValue(chat, "").Rejected? then r == Rejected("event_chat_id_invalid")
                  else if sender.None? then r == Rejected("event_sender_missing")
                  else if !(Usable(sender.value.openId) && Usable(sender.value.userId) && Usable(sender.value.unionId))
                  then r == Rejected("event_sender_invalid")
                  else if Skipped(sender.value.openId) && Skipped(sender.value.userId) && Skipped(sender.value.unionId)
                  then r == Rejected("event_sender_missing")
                  else r.Ok?)
  {
    hide Strip, ActorValue, ActorIds.Scopes;
  }
}

/**
  * `OutfitChatController`: a chat session opened by `analyze` (one turn used,
  * active) and continued by `storeMessage`, which allows ten turns, keeps a
  * failed user message for a later retry instead of storing it twice, and
  * sends the AI the latest twelve messages of the session minus the failed
  * ones, followed by the new user turn.
  */
module ChatSession {
  import opened Outcomes
  import opened Text
  import opened PhpArray
  import OutfitAnalysis
  import RetryAfter
  import GeminiCall
  import DetectedItems
  import opened AnalysisProcess

  const MaxTurns := 10
  const RecentLimit := 12

  datatype Role = User | Assistant

  /** One entry of `recent_messages`. */
  datatype Turn = Turn(role: Role, content: string)

  /** One `outfit_chat_messages` row; `meta` is a JSON object or null. */
  datatype Message = Message(id: nat, sessionId: nat, role: Role, content: string, meta: Option<Entries>)

  datatype SessionStatus = Active | Closed

  /** One `outfit_chat_sessions` row (title and intake are not modelled). */
  datatype Session = Session(id: nat, userId: int, imagePath: string, vision: Entries,
                             analysis: OutfitAnalysis.Analysis, turnsUsed: int, status: SessionStatus)

  /**
    * `is_array($m->meta) && (string) data_get($m->meta, 'status') === 'failed'`.
    * Only the controller writes `meta`, and its `status` is always a string, so
    * the throwing cast of an array status does not arise.
    */
  predicate IsFailed(meta: Option<Entries>) {
    meta.Some? && Get(meta.value, StrKey("status")).Some? && ToPhpString(Get(meta.value, StrKey("status")).value) == Some("failed")
  }

  // ----- the context window -----

  /** The session's messages, in row order. */
  function OfSession(messages: seq<Message>, sid: nat): (r: seq<Message>)
    ensures |r| <= |messages|
    ensures forall m :: m in r <==> m in messages && m.sessionId == sid
  {
    if messages == [] then []
    else
      var init := messages[..|messages| - 1];
      var last := messages[|messages| - 1];
      assert messages == init + [last];
      if last.sessionId == sid then OfSession(init, sid) + [last] else OfSession(init, sid)
  }

  /** `orderByDesc('id')->limit(n)->get()->reverse()`: the last n, in ascending order. */
  function Latest(ms: seq<Message>, n: nat): (r: seq<Message>)
    ensures |r| == if |ms| <= n then |ms| else n
    ensures r == ms[|ms| - |r|..]
  {
    if |ms| <= n then ms else ms[|ms| - n..]
  }

  /** `->filter(fn ($m) => !failed)`. */
  function Visible(ms: seq<Message>): (r: seq<Message>)
    ensures |r| <= |ms|
    ensures forall m :: m in r <==> m in ms && !IsFailed(m.meta)
  {
    if ms == [] then []
    else
      var init := ms[..|ms| - 1];
      var last := ms[|ms| - 1];
      assert ms == init + [last];
      if IsFailed(last.meta) then Visible(init) else Visible(init) + [last]
  }

  /** `->map(fn ($m) => ['role' => ..., 'content' => ...])`. */
  function TurnsOf(ms: seq<Message>): (r: seq<Turn>)
    ensures |r| == |ms|
    ensures forall i :: 0 <= i < |ms| ==> r[i] == Turn(ms[i].role, ms[i].content)
  {
    seq(|ms|, i requires 0 <= i < |ms| => Turn(ms[i].role, ms[i].content))
  }

  /** `$recentForAi`: the visible part of the latest twelve, then the user's new turn. */
  function Context(messages: seq<Message>, sid: nat, content: string): (r: seq<Turn>)
    ensures 1 <= |r| <= RecentLimit + 1 && r[|r| - 1] == Turn(User, content)
  {
    TurnsOf(Visible(Latest(OfSession(messages, sid), RecentLimit))) + [Turn(User, content)]
  }

  /**
    * The AI sees at most thirteen turns, ending with the user's content; the
    * turns before it are, in order, the messages among the session's twelve
    * latest that have not failed.
    */
  lemma ContextShape(messages: seq<Message>, sid: nat, content: string)
    ensures var latest := Latest(OfSession(messages, sid), RecentLimit);
      var vis := Visible(latest);
      var c := Context(messages, sid, content);
      && |c| == |vis| + 1 <= RecentLimit + 1 && c[|vis|] == Turn(User, content)
      && forall i :: 0 <= i < |vis| ==>
           && c[i] == Turn(vis[i].role, vis[i].content)
           && vis[i] in latest && vis[i] in messages && vis[i].sessionId == sid && !IsFailed(vis[i].meta)
  {
    var ofs := OfSession(messages, sid);
    var latest := Latest(ofs, RecentLimit);
    var vis := Visible(latest);
    forall i | 0 <= i < |vis|
      ensures vis[i] in latest && vis[i] in messages
    {
      var m := vis[i];
      assert m in vis;
      var k :| 0 <= k < |latest| && latest[k] == m;
      assert m == ofs[|ofs| - |latest| + k];
      assert m in ofs;
    }
  }

  // ----- failure bookkeeping -----

  const RateWords := "RESOURCE_EXHAUSTED"
  const FreeTierWords := "generate_content_free_tier_requests"
  const ChatQuotaReply := "AI quota exceeded. Please wait a bit and try again."
  const ChatFailedReply := "AI reply failed. Please try again."

  /** The `$statusCode` of a failed reply: 429 for the three quota markers, else 502. */
  function ChatErrorStatus(msg: string): (r: int)
    ensures r == 429 <==> Contains(msg, GeminiCall.QuotaWords) || Contains(msg, RateWords) || Contains(msg, FreeTierWords)
    ensures r == 429 || r == 502
  {
    if Contains(msg, GeminiCall.QuotaWords) || Contains(msg, RateWords) || Contains(msg, FreeTierWords) then 429 else 502
  }

  /** The reply's `message` for an error status: the quota text exactly for 429. */
  function ChatPublicMessage(status: int): (r: string)
    ensures r == ChatQuotaReply <==> status == 429
    ensures r == ChatQuotaReply || r == ChatFailedReply
  {
    if status == 429 then ChatQuotaReply else ChatFailedReply
  }

  /** The Gemini client's quota failure is reported to the chat as 429. */
  lemma ChatQuotaIs429(details: string)
    ensures ChatErrorStatus(GeminiCall.QuotaPrefix + details) == 429
  {
    var m := GeminiCall.QuotaPrefix + details;
    var words := GeminiCall.QuotaWords;
    assert m == "Gemini " + words + (GeminiCall.QuotaPrefix[|GeminiCall.QuotaMarker|..] + details);
    assert m[7..7 + |words|] == words;
    ContainsAt(m, words, 7);
  }

  /** The meta keys a failure writes and a successful retry removes. */
  const FailureKeys: set<Key> := {StrKey("status"), StrKey("error_status"), StrKey("error_message"), StrKey("retry_after")}

  /** The meta after a failed reply: the old meta (or none) with the four failure keys written. */
  function FailureMeta(meta: Option<Entries>, msg: string): (r: Entries)
    ensures IsFailed(Some(r))
  {
    var status := ChatErrorStatus(msg);
    var delay := RetryAfter.InlineRetryAfter(msg);
    var d := if delay.Some? then Int(delay.value) else Null;
    MarkedFailed(if meta.Some? then meta.value else [], Int(status), Str(ChatPublicMessage(status)), d);
    Marked(if meta.Some? then meta.value else [], Int(status), Str(ChatPublicMessage(status)), d)
  }

  /** `$meta['status'] = 'failed'` and the three other failure keys, in the source's order. */
  function Marked(es: Entries, status: Value, message: Value, delay: Value): Entries {
    var es1 := Written(es, StrKey("status"), Str("failed"));
    var es2 := Written(es1, StrKey("error_status"), status);
    var es3 := Written(es2, StrKey("error_message"), message);
    Written(es3, StrKey("retry_after"), delay)
  }

  /** `unset($meta[...])` for a set of keys. */
  function Without(es: Entries, ks: set<Key>): (r: Entries)
    ensures forall i :: 0 <= i < |r| ==> r[i].0 !in ks
  {
    if es == [] then []
    else if es[0].0 in ks then Without(es[1..], ks)
    else [es[0]] + Without(es[1..], ks)
  }

  /** The meta after a successful retry: failure keys removed, null when nothing is left. */
  function Cleared(meta: Option<Entries>): (r: Option<Entries>)
    ensures !IsFailed(r)
  {
    var es := Without(if meta.Some? then meta.value else [], FailureKeys);
    WithoutNotFailed(if meta.Some? then meta.value else []);
    if es == [] then None else Some(es)
  }

  lemma {:induction false} WithoutWritten(es: Entries, k: Key, v: Value, ks: set<Key>)
    requires k in ks
    ensures Without(Written(es, k, v), ks) == Without(es, ks)
  {
    if es != [] && es[0].0 != k {
      WithoutWritten(es[1..], k, v, ks);
    }
  }

  /** A marked message reads as failed. */
  lemma MarkedFailed(es: Entries, status: Value, message: Value, delay: Value)
    ensures IsFailed(Some(Marked(es, status, message, delay)))
  {
    var es1 := Written(es, StrKey("status"), Str("failed"));
    var es2 := Written(es1, StrKey("error_status"), status);
    var es3 := Written(es2, StrKey("error_message"), message);
    WrittenGet(es, StrKey("status"), Str("failed"));
    WrittenFrame(es1, StrKey("error_status"), status, StrKey("status"));
    WrittenFrame(es2, StrKey("error_message"), message, StrKey("status"));
    WrittenFrame(es3, StrKey("retry_after"), delay, StrKey("status"));
  }

  /** Removing the failure keys removes the failed status. */
  lemma WithoutNotFailed(es: Entries)
    ensures !IsFailed(Some(Without(es, FailureKeys)))
  {
    var r := Without(es, FailureKeys);
    assert !HasKey(r, StrKey("status"));
  }

  /** Removing the failure keys undoes marking. */
  lemma WithoutMarked(es: Entries, status: Value, message: Value, delay: Value)
    ensures Without(Marked(es, status, message, delay), FailureKeys) == Without(es, FailureKeys)
  {
    var es1 := Written(es, StrKey("status"), Str("failed"));
    var es2 := Written(es1, StrKey("error_status"), status);
    var es3 := Written(es2, StrKey("error_message"), message);
    WithoutWritten(es, StrKey("status"), Str("failed"), FailureKeys);
    WithoutWritten(es1, StrKey("error_status"), status, FailureKeys);
    WithoutWritten(es2, StrKey("error_message"), message, FailureKeys);
    WithoutWritten(es3, StrKey("retry_after"), delay, FailureKeys);
  }

  /**
    * Clearing undoes a failure: a message that failed (once or several
    * times) and then succeeded on retry ends with the meta it had before;
    * a message that failed on its first try ends with null meta, like one
    * that never failed.
    */
  lemma ClearUndoesFailure(meta: Option<Entries>, msg: string)
    ensures Cleared(Some(FailureMeta(meta, msg))) == Cleared(meta)
    ensures Cleared(Some(FailureMeta(None, msg))) == None
  {
    var status := ChatErrorStatus(msg);
    var delay := RetryAfter.InlineRetryAfter(msg);
    var d := if delay.Some? then Int(delay.value) else Null;
    WithoutMarked(if meta.Some? then meta.value else [], Int(status), Str(ChatPublicMessage(status)), d);
    WithoutMarked([], Int(status), Str(ChatPublicMessage(status)), d);
  }

  // ----- storeMessage -----

  const NotFoundReply := "Not found."
  const LimitReply := "This chat has reached the 10-turn limit."
  const MessageNotFoundReply := "Message not found."
  const NotRetryableReply := "This message cannot be retried."
  const ContentRequiredReply := "Content is required."

  /** The JSON answer of `storeMessage`. */
  datatype ChatReply =
    | Refused(status: int, message: string, turnsReached: Option<int>)
    | ReplyFailed(status: int, message: string, retryAfter: Option<nat>, userMsg: Message, turnsUsed: int)
    | Replied(userMsg: Message, assistantMsg: Message, turnsUsed: int)

  /** The session and message rows after a request, and its answer. */
  datatype Stored = Stored(session: Session, messages: seq<Message>, reply: ChatReply)

  /** `if ($retryMessageId)`: a retry id that is present and not 0. */
  predicate IsRetry(retryId: Option<int>) {
    retryId.Some? && retryId.value != 0
  }

  /** The user message of the session with that id: `->where(...)->first()`. */
  function FindUserMessage(messages: seq<Message>, sid: nat, id: int): (r: Option<nat>)
    ensures r.Some? ==> (r.value < |messages| && messages[r.value].id == id
      && messages[r.value].sessionId == sid && messages[r.value].role == User)
    ensures r.None? <==> forall i :: 0 <= i < |messages| ==>
      !(messages[i].id == id && messages[i].sessionId == sid && messages[i].role == User)
  {
    if messages == [] then None
    else if messages[0].id == id && messages[0].sessionId == sid && messages[0].role == User then Some(0)
    else
      var r := FindUserMessage(messages[1..], sid, id);
      assert forall i :: 1 <= i < |messages| ==> messages[i] == messages[1..][i - 1];
      if r.Some? then Some(r.value + 1) else None
  }

  /**
    * `storeMessage` on the route's session `s`, for the signed-in `userId`,
    * with the request's `retry_message_id` and `content` (null as "") and the
    * AI's reply to a context (its text, or the message it threw).
    */
  function StoreMessageOf(s: Session, messages: seq<Message>, userId: int, retryId: Option<int>, content: string,
                          ai: seq<Turn> -> Result<string, string>): (r: Stored)
    ensures r.reply.Refused? ==> r.session == s && r.messages == messages
    ensures s.userId != userId ==> r.reply == Refused(404, NotFoundReply, None)
    ensures s.userId == userId && s.turnsUsed >= MaxTurns ==> r.reply == Refused(429, LimitReply, Some(s.turnsUsed))
  {
    if s.userId != userId then Stored(s, messages, Refused(404, NotFoundReply, None))
    else if s.turnsUsed >= MaxTurns then Stored(s, messages, Refused(429, LimitReply, Some(s.turnsUsed)))
    else if IsRetry(retryId) then
      match FindUserMessage(messages, s.id, retryId.value)
      case None => Stored(s, messages, Refused(404, MessageNotFoundReply, None))
      case Some(i) =>
        if !IsFailed(messages[i].meta) then Stored(s, messages, Refused(422, NotRetryableReply, None))
        else Answer(s, messages, Some(i), messages[i].content, ai)
    else if Trim(content, PhpTrim) == "" then Stored(s, messages, Refused(422, ContentRequiredReply, None))
    else Answer(s, messages, None, content, ai)
  }

  /** The part of `storeMessage` after the guards: the AI call and what it leaves behind. */
  function Answer(s: Session, messages: seq<Message>, retried: Option<nat>, text: string,
                  ai: seq<Turn> -> Result<string, string>): (r: Stored)
    requires retried.Some? ==> retried.value < |messages|
    ensures r.reply.Replied? <==> ai(Context(messages, s.id, text)).Success?
    ensures r.reply.Replied? ==> r.reply.assistantMsg.content == ai(Context(messages, s.id, text)).value
    ensures r.reply.ReplyFailed? ==> r.session == s
    ensures |messages| <= |r.messages|
    ensures forall i :: 0 <= i < |messages| ==> r.messages[i].id == messages[i].id && r.messages[i].content == messages[i].content
  {
    match ai(Context(messages, s.id, text))
    case Failure(msg) => AnswerFailed(s, messages, retried, text, msg)
    case Success(answer) => AnswerReplied(s, messages, retried, text, answer)
  }

  /**
    * The `catch` block: the retried message, or a new one, is marked failed;
    * the session is untouched.
    */
  function AnswerFailed(s: Session, messages: seq<Message>, retried: Option<nat>, text: string, msg: string): (r: Stored)
    requires retried.Some? ==> retried.value < |messages|
    ensures r.session == s && r.reply.ReplyFailed? && r.reply.turnsUsed == s.turnsUsed
    ensures r.reply.status in {429, 502} && IsFailed(r.reply.userMsg.meta)
    ensures retried.Some? ==> r.messages == messages[retried.value := r.reply.userMsg]
    ensures retried.None? ==> r.messages == messages + [r.reply.userMsg]
    ensures r.reply.userMsg == if retried.Some? then messages[retried.value].(meta := Some(FailureMeta(messages[retried.value].meta, msg)))
                               else Message(|messages| + 1, s.id, User, text, Some(FailureMeta(None, msg)))
    ensures |messages| <= |r.messages|
    ensures forall i :: 0 <= i < |messages| ==> r.messages[i].id == messages[i].id && r.messages[i].content == messages[i].content
  {
    var status := ChatErrorStatus(msg);
    var user := if retried.Some? then messages[retried.value].(meta := Some(FailureMeta(messages[retried.value].meta, msg)))
                else Message(|messages| + 1, s.id, User, text, Some(FailureMeta(None, msg)));
    var ms := if retried.Some? then messages[retried.value := user] else messages + [user];
    Stored(s, ms, ReplyFailed(status, ChatPublicMessage(status), RetryAfter.InlineRetryAfter(msg), user, s.turnsUsed))
  }

  /**
    * After a reply: the retried message's failure keys are removed, or a new
    * message is stored; the assistant's message follows; one more turn is
    * used and the session closes at ten.
    */
  function AnswerReplied(s: Session, messages: seq<Message>, retried: Option<nat>, text: string, answer: string): (r: Stored)
    requires retried.Some? ==> retried.value < |messages|
    ensures r.reply.Replied? && !IsFailed(r.reply.userMsg.meta)
    ensures r.session == s.(turnsUsed := s.turnsUsed + 1, status := r.session.status)
    ensures r.session.status == (if s.turnsUsed + 1 >= MaxTurns then Closed else s.status)
    ensures r.reply.turnsUsed == s.turnsUsed + 1
    ensures retried.Some? ==> r.messages == messages[retried.value := r.reply.userMsg] + [r.reply.assistantMsg]
    ensures retried.None? ==> r.messages == messages + [r.reply.userMsg, r.reply.assistantMsg]
    ensures r.reply.assistantMsg == Message(|r.messages|, s.id, Assistant, answer, None)
    ensures r.reply.userMsg == if retried.Some? then messages[retried.value].(meta := Cleared(messages[retried.value].meta))
                               else Message(|messages| + 1, s.id, User, text, None)
    ensures |messages| < |r.messages|
    ensures forall i :: 0 <= i < |messages| ==> r.messages[i].id == messages[i].id && r.messages[i].content == messages[i].content
  {
    var user := if retried.Some? then messages[retried.value].(meta := Cleared(messages[retried.value].meta))
                else Message(|messages| + 1, s.id, User, text, None);
    var ms := if retried.Some? then messages[retried.value := user] else messages + [user];
    var assistant := Message(|ms| + 1, s.id, Assistant, answer, None);
    var turns := s.turnsUsed + 1;
    var s' := s.(turnsUsed := turns, status := if turns >= MaxTurns then Closed else s.status);
    Stored(s', ms + [assistant], Replied(user, assistant, turns))
  }

  /**
    * A request is refused exactly when the session is someone else's, its
    * turns are used up, the retried message does not exist or has not
    * failed, or a new message is blank; a refusal changes nothing.
    */
  lemma RefusedIff(s: Session, messages: seq<Message>, userId: int, retryId: Option<int>, content: string,
                   ai: seq<Turn> -> Result<string, string>)
    ensures var r := StoreMessageOf(s, messages, userId, retryId, content, ai);
      var found := if IsRetry(retryId) then FindUserMessage(messages, s.id, retryId.value) else None;
      && (r.reply.Refused? <==>
            s.userId != userId || s.turnsUsed >= MaxTurns
            || (IsRetry(retryId) && (found.None? || !IsFailed(messages[found.value].meta)))
            || (!IsRetry(retryId) && AllSpace(content, PhpTrim)))
      && (r.reply.Refused? ==> r.session == s && r.messages == messages)
      && (r.reply.Refused? && r.reply.status == 429 ==> s.turnsUsed >= MaxTurns && r.reply.message == LimitReply)
  {
    TrimEmptyIffAllSpace(content, PhpTrim);
  }

  /**
    * A failed reply uses no turn and leaves the session as it was; a
    * successful one uses exactly one, and closes the session exactly when
    * it reaches ten.
    */
  lemma TurnAccounting(s: Session, messages: seq<Message>, userId: int, retryId: Option<int>, content: string,
                       ai: seq<Turn> -> Result<string, string>)
    ensures var r := StoreMessageOf(s, messages, userId, retryId, content, ai);
      && (r.reply.ReplyFailed? ==>
            r.session == s && r.reply.turnsUsed == s.turnsUsed && r.reply.status in {429, 502} && IsFailed(r.reply.userMsg.meta))
      && (r.reply.Replied? ==>
            && s.turnsUsed < MaxTurns && r.session.turnsUsed == s.turnsUsed + 1 == r.reply.turnsUsed
            && r.session.id == s.id && r.session.userId == s.userId
            && (r.session.status == Closed <==> r.session.turnsUsed == MaxTurns || s.status == Closed)
            && !IsFailed(r.reply.userMsg.meta))
  {
  }

  /** The sessions `analyze` creates and `storeMessage` keeps: 1..10 turns, closed exactly at 10. */
  predicate Sound(s: Session) {
    1 <= s.turnsUsed <= MaxTurns && (s.status == Closed <==> s.turnsUsed == MaxTurns)
  }

  /** No request takes a session past ten turns or leaves it open at ten. */
  lemma SoundKept(s: Session, messages: seq<Message>, userId: int, retryId: Option<int>, content: string,
                  ai: seq<Turn> -> Result<string, string>)
    requires Sound(s)
    ensures Sound(StoreMessageOf(s, messages, userId, retryId, content, ai).session)
  {
    TurnAccounting(s, messages, userId, retryId, content, ai);
  }

  /**
    * A retry never stores the user's message twice: a new message adds one
    * row when the reply fails and two when it succeeds; a retry updates the
    * message in place and adds only the assistant's row. Earlier rows keep
    * their place and their id.
    */
  lemma RowsAdded(s: Session, messages: seq<Message>, userId: int, retryId: Option<int>, content: string,
                  ai: seq<Turn> -> Result<string, string>)
    ensures var r := StoreMessageOf(s, messages, userId, retryId, content, ai);
      var added := (if r.reply.Replied? then 1 else 0) + (if r.reply.Refused? || IsRetry(retryId) then 0 else 1);
      && |r.messages| == |messages| + added
      && (forall i :: 0 <= i < |messages| ==> r.messages[i].id == messages[i].id && r.messages[i].content == messages[i].content)
      && (r.reply.Replied? ==> (r.messages[|r.messages| - 1] == r.reply.assistantMsg
            && r.reply.assistantMsg.role == Assistant && r.reply.assistantMsg.id == |r.messages|))
  {
    TrimEmptyIffAllSpace(content, PhpTrim);
    if s.userId == userId && s.turnsUsed < MaxTurns {
      if IsRetry(retryId) {
        var f := FindUserMessage(messages, s.id, retryId.value);
        if f.Some? && IsFailed(messages[f.value].meta) {
          RetryStep(s, messages, userId, retryId, content, f.value, ai);
        }
      } else if !AllSpace(content, PhpTrim) {
        FreshStep(s, messages, userId, content, ai);
      }
    }
  }

  /** A new, non-blank message in an open session of the user goes to the AI. */
  lemma FreshStep(s: Session, messages: seq<Message>, userId: int, content: string, ai: seq<Turn> -> Result<string, string>)
    requires s.userId == userId && s.turnsUsed < MaxTurns && !AllSpace(content, PhpTrim)
    ensures StoreMessageOf(s, messages, userId, None, content, ai) == Answer(s, messages, None, content, ai)
  {
    TrimEmptyIffAllSpace(content, PhpTrim);
    assert Trim(content, PhpTrim) != "";
    assert !IsRetry(None);
  }

  /** A retry of a failed message of the session sends its stored content to the AI, whatever `content` says. */
  lemma RetryStep(s: Session, messages: seq<Message>, userId: int, retryId: Option<int>, content: string, i: nat,
                  ai: seq<Turn> -> Result<string, string>)
    requires s.userId == userId && s.turnsUsed < MaxTurns && IsRetry(retryId)
    requires FindUserMessage(messages, s.id, retryId.value) == Some(i) && IsFailed(messages[i].meta)
    ensures StoreMessageOf(s, messages, userId, retryId, content, ai) == Answer(s, messages, Some(i), messages[i].content, ai)
  {
  }

  /**
    * A message whose reply failed and that is then retried successfully ends
    * exactly as if the first attempt had succeeded with the same reply: same
    * rows (the retried message's meta is null again), same session, same
    * answer — provided message ids follow the row order.
    */
  lemma RetryRecovers(s: Session, messages: seq<Message>, userId: int, content: string, error: string, answer: string)
    requires s.userId == userId && s.turnsUsed < MaxTurns && !AllSpace(content, PhpTrim)
    requires forall i :: 0 <= i < |messages| ==> messages[i].id == i + 1
    ensures var failed := StoreMessageOf(s, messages, userId, None, content, t => Failure(error));
      var retried := StoreMessageOf(failed.session, failed.messages, userId, Some(|messages| + 1), "", t => Success(answer));
      var direct := StoreMessageOf(s, messages, userId, None, content, t => Success(answer));
      failed.reply.ReplyFailed? && retried == direct
  {
    var n := |messages|;
    FreshStep(s, messages, userId, content, t => Failure(error));
    assert Answer(s, messages, None, content, t => Failure(error)) == AnswerFailed(s, messages, None, content, error);
    var failed := AnswerFailed(s, messages, None, content, error);
    FailedFindable(s, messages, content, error);
    RetryStep(s, failed.messages, userId, Some(n + 1), "", n, t => Success(answer));
    assert Answer(s, failed.messages, Some(n), content, t => Success(answer)) == AnswerReplied(s, failed.messages, Some(n), content, answer);
    FreshStep(s, messages, userId, content, t => Success(answer));
    assert Answer(s, messages, None, content, t => Success(answer)) == AnswerReplied(s, messages, None, content, answer);
    RepliedAfterFailed(s, messages, content, error, answer);
  }

  /** The message a failed first attempt stores is the one a retry of its id finds. */
  lemma FailedFindable(s: Session, messages: seq<Message>, content: string, error: string)
    requires forall i :: 0 <= i < |messages| ==> messages[i].id == i + 1
    ensures var failed := AnswerFailed(s, messages, None, content, error);
      var n := |messages|;
      && n < |failed.messages| && failed.messages[n].id == n + 1 && failed.messages[n].content == content
      && FindUserMessage(failed.messages, s.id, n + 1) == Some(n) && IsFailed(failed.messages[n].meta)
  {
    var failed := AnswerFailed(s, messages, None, content, error);
    FindAppended(messages, failed.reply.userMsg);
  }

  lemma FindAppended(messages: seq<Message>, m: Message)
    requires forall i :: 0 <= i < |messages| ==> messages[i].id == i + 1
    requires m.id == |messages| + 1 && m.role == User
    ensures FindUserMessage(messages + [m], m.sessionId, m.id) == Some(|messages|)
  {
    var ms := messages + [m];
    assert ms[|messages|] == m;
    var r := FindUserMessage(ms, m.sessionId, m.id);
    assert r.Some?;
  }

  /** Replying to the retried message gives the rows a first-time reply gives. */
  lemma RepliedAfterFailed(s: Session, messages: seq<Message>, content: string, error: string, answer: string)
    ensures var failed := AnswerFailed(s, messages, None, content, error);
      AnswerReplied(s, failed.messages, Some(|messages|), content, answer) == AnswerReplied(s, messages, None, content, answer)
  {
    var failed := AnswerFailed(s, messages, None, content, error);
    ClearUndoesFailure(None, error);
    RepliedAfterMarked(s, messages, content, FailureMeta(None, error), answer);
  }

  lemma RepliedAfterMarked(s: Session, messages: seq<Message>, content: string, meta: Entries, answer: string)
    requires Cleared(Some(meta)) == None
    ensures var n := |messages|;
      AnswerReplied(s, messages + [Message(n + 1, s.id, User, content, Some(meta))], Some(n), content, answer)
        == AnswerReplied(s, messages, None, content, answer)
  {
    var n := |messages|;
    var m := Message(n + 1, s.id, User, content, Some(meta));
    assert (messages + [m])[n := m.(meta := None)] == messages + [Message(n + 1, s.id, User, content, None)];
  }

  // ----- analyze -----

  const ChatKind := "chat_analyze"
  const DetectedSourceType := "chat_session"
  const DefaultOpening := "Analyze my outfit with the provided context."

  /** PHP `ucfirst`: the first character upper-cased (ASCII letters only), the rest kept. */
  function Ucfirst(s: string): (r: string)
    ensures |r| == |s|
    ensures s != [] ==> r[0] == UpperChar(s[0]) && r[1..] == s[1..]
  {
    if s == [] then [] else [UpperChar(s[0])] + s[1..]
  }

  /** `ucfirst` is idempotent: a capitalised text stays as it is. */
  lemma UcfirstIdempotent(s: string)
    ensures Ucfirst(Ucfirst(s)) == Ucfirst(s)
  {
    if s != [] {
      var c := s[0];
      assert UpperChar(UpperChar(c)) == UpperChar(c);
      assert Ucfirst(s)[1..] == s[1..];
    }
  }

  /** `(string) $key` of an array key. */
  function KeyText(k: Key): string {
    match k
    case IntKey(n) => IntToString(n)
    case StrKey(t) => t
  }

  /** PHP `implode($sep, $parts)`, including the empty list. */
  function Implode(parts: seq<string>, sep: char): (r: string)
    ensures parts == [] ==> r == ""
    ensures |parts| == 1 ==> r == parts[0]
    ensures |parts| > 1 ==> r == parts[0] + [sep] + Implode(parts[1..], sep)
  {
    if parts == [] then "" else Join(parts, sep)
  }

  /** `explode` takes an `implode` of non-empty lists apart again when no part holds the separator. */
  lemma ImplodeExplode(parts: seq<string>, sep: char)
    requires parts != [] && forall p :: p in parts ==> sep !in p
    ensures Split(Implode(parts, sep), sep) == parts
  {
    SplitJoin(parts, sep);
  }

  /** `(string) data_get($row, 'status', 'neutral')`, before the cast. */
  function StatusOf(row: Value): Value {
    DataGetOr(row, [StrKey("status")], Str("neutral"))
  }

  /** `(string) data_get($row, 'message', '')`, before the cast. */
  function MessageOf(row: Value): Value {
    DataGetOr(row, [StrKey("message")], Str(""))
  }

  /** A feedback row whose status or message is an array: its cast throws. */
  predicate RowThrows(row: Value) {
    StatusOf(row).Arr? || MessageOf(row).Arr?
  }

  /**
    * One line of the fallback's context section: `Success(None)` when the row
    * has no message, a failure when its status or message cannot be cast.
    */
  function ContextLine(key: Key, row: Value): (r: Result<Option<string>, string>)
    ensures r.Failure? <==> RowThrows(row)
    ensures r.Failure? ==> r.error == ArrayToString
    ensures r.Success? ==> (r.value.None? <==> ToPhpString(MessageOf(row)) == Some(""))
    ensures r.Success? && r.value.Some? ==>
      var m := ToPhpString(MessageOf(row)).value;
      && StartsWith(r.value.value, Ucfirst(KeyText(key)) + " (")
      && |m| < |r.value.value| && r.value.value[|r.value.value| - |m|..] == m
  {
    match (ToPhpString(StatusOf(row)), ToPhpString(MessageOf(row)))
    case (Some(status), Some(message)) =>
      if message == "" then Success(None)
      else
        var head := Ucfirst(KeyText(key)) + " (";
        var line := head + status + "): " + message;
        assert line == head + (status + "): " + message);
        ConcatParts(head, status + "): " + message);
        Success(Some(line))
    case _ => Failure(ArrayToString)
  }

  /**
    * `$contextLines`: one line per feedback row with a non-empty message, in
    * order; a failure as soon as a row's cast throws.
    */
  function ContextLines(fb: Entries): (r: Result<seq<string>, string>)
    ensures r.Failure? <==> exists i :: 0 <= i < |fb| && RowThrows(fb[i].1)
    ensures r.Failure? ==> r.error == ArrayToString
  {
    if fb == [] then Success([])
    else
      var rest := ContextLines(fb[1..]);
      ThrowsShift(fb);
      match ContextLine(fb[0].0, fb[0].1)
      case Failure(e) => Failure(e)
      case Success(line) =>
        if rest.Failure? then rest
        else if line.Some? then Success([line.value] + rest.value)
        else rest
  }

  /** Some row after the first throws exactly when some row of the tail does. */
  lemma ThrowsShift(fb: Entries)
    requires fb != []
    ensures (exists i :: 1 <= i < |fb| && RowThrows(fb[i].1)) <==> exists k :: 0 <= k < |fb[1..]| && RowThrows(fb[1..][k].1)
  {
    if exists k :: 0 <= k < |fb[1..]| && RowThrows(fb[1..][k].1) {
      var k :| 0 <= k < |fb[1..]| && RowThrows(fb[1..][k].1);
      assert fb[k + 1] == fb[1..][k];
    }
    if exists i :: 1 <= i < |fb| && RowThrows(fb[i].1) {
      var i :| 1 <= i < |fb| && RowThrows(fb[i].1);
      assert fb[1..][i - 1] == fb[i];
    }
  }

  /**
    * The context section has at most one line per row, is empty exactly when
    * no row has a message, and each of its lines is the line of some row.
    */
  lemma {:induction false} ContextLinesShape(fb: Entries)
    requires ContextLines(fb).Success?
    ensures var lines := ContextLines(fb).value;
      && |lines| <= |fb|
      && (lines == [] <==> forall i :: 0 <= i < |fb| ==> ContextLine(fb[i].0, fb[i].1) == Success(None))
      && forall line :: line in lines ==> exists i :: 0 <= i < |fb| && ContextLine(fb[i].0, fb[i].1) == Success(Some(line))
  {
    if fb != [] {
      var tail := fb[1..];
      ThrowsShift(fb);
      ContextLinesShape(tail);
      assert forall i :: 1 <= i < |fb| ==> fb[i] == tail[i - 1];
      var lines := ContextLines(fb).value;
      var line := ContextLine(fb[0].0, fb[0].1).value;
      if line.Some? {
        assert lines[0] == line.value;
      }
      forall l | l in lines
        ensures exists i :: 0 <= i < |fb| && ContextLine(fb[i].0, fb[i].1) == Success(Some(l))
      {
        if l !in ContextLines(tail).value {
          assert ContextLine(fb[0].0, fb[0].1) == Success(Some(l));
        } else {
          var k :| 0 <= k < |tail| && ContextLine(tail[k].0, tail[k].1) == Success(Some(l));
          assert fb[k + 1] == tail[k];
        }
      }
    }
  }

  /** The first line of the fallback reply. */
  function ScoreLine(a: Attempt): string {
    "Score: " + IntToString(a.analysis.score) + "\n\n"
  }

  /**
    * The assistant's opening text when the reply call throws: the score, the
    * context section when some feedback row has a message, then pros, issues
    * and suggestions. The casts of the feedback rows can throw in turn.
    */
  function FallbackText(a: Attempt): (r: Result<string, string>)
    ensures r.Failure? <==> ContextLines(a.contextFeedback).Failure?
    ensures r.Failure? ==> r.error == ArrayToString
    ensures r.Success? ==> StartsWith(r.value, ScoreLine(a))
    ensures r.Success? ==> (StartsWith(r.value[|ScoreLine(a)|..], "Context:\n") <==> ContextLines(a.contextFeedback).value != [])
  {
    match FallbackBody(a)
    case Failure(e) => Failure(e)
    case Success(body) =>
      ConcatParts(ScoreLine(a), body);
      Success(ScoreLine(a) + body)
  }

  /**
    * The fallback reply after the score line: the context section, if any,
    * then pros, issues and suggestions, each list joined by spaces.
    */
  function FallbackBody(a: Attempt): (r: Result<string, string>)
    ensures r.Failure? <==> ContextLines(a.contextFeedback).Failure?
    ensures r.Failure? ==> r.error == ArrayToString
    ensures r.Success? ==> (StartsWith(r.value, "Context:\n") <==> ContextLines(a.contextFeedback).value != [])
    ensures r.Success? ==> EndsWith(r.value, "Suggestions: " + Implode(a.analysis.suggestions, ' '))
  {
    match ContextLines(a.contextFeedback)
    case Failure(e) => Failure(e)
    case Success(lines) =>
      var last := "Suggestions: " + Implode(a.analysis.suggestions, ' ');
      var lead := Implode(a.analysis.pros, ' ') + "\n\n" + "Issues: " + Implode(a.analysis.issues, ' ') + "\n\n";
      var tail := lead + last;
      var rest := "Pros: " + tail;
      EndsAfter(lead, last);
      EndsAfter("Pros: ", tail);
      EndsTrans(rest, tail, last);
      if lines != [] then
        var section := Implode(lines, '\n') + "\n\n" + rest;
        ConcatParts("Context:\n", section);
        EndsAfter(Implode(lines, '\n') + "\n\n", rest);
        EndsTrans(section, rest, last);
        EndsAfter("Context:\n", section);
        EndsTrans("Context:\n" + section, section, last);
        Success("Context:\n" + section)
      else
        AppendTail("Pros: ", tail);
        FirstCharDiffers("Context:\n", rest);
        Success(rest)
  }

  /** `s` ends with `t`. */
  predicate EndsWith(s: string, t: string) {
    |t| <= |s| && s[|s| - |t|..] == t
  }

  lemma EndsAfter(x: string, y: string)
    ensures EndsWith(x + y, y)
  {
    assert (x + y)[|x|..] == y;
  }

  lemma EndsTrans(s: string, mid: string, last: string)
    requires EndsWith(s, mid) && EndsWith(mid, last)
    ensures EndsWith(s, last)
  {
    assert s[|s| - |last|..] == s[|s| - |mid|..][|mid| - |last|..];
  }

  /** The session `analyze` opens: one turn used, active. */
  function OpenedSession(id: nat, userId: int, path: string, a: Attempt): Session {
    Session(id, userId, path, a.vision, a.analysis, 1, Active)
  }

  /** The user's opening text: the request's `message` when truthy, else the default. */
  function Opening(message: string): string {
    if TruthyString(message) then message else DefaultOpening
  }

  /**
    * The assistant's first text: the AI's reply to the opening turn, or, when
    * that call throws, the fallback text, whose casts can throw in turn.
    */
  function OpeningAnswer(message: string, a: Attempt, ai: seq<Turn> -> Result<string, string>): (r: Result<string, string>)
    ensures ai([Turn(User, Opening(message))]).Success? ==> r == ai([Turn(User, Opening(message))])
    ensures ai([Turn(User, Opening(message))]).Failure? ==> r == FallbackText(a)
    ensures r.Failure? ==> r.error == ArrayToString
  {
    var reply := ai([Turn(User, Opening(message))]);
    if reply.Success? then reply else FallbackText(a)
  }

  /** The assistant's first message: its text, with the analysis score in `meta`. */
  function AssistantOpening(id: nat, sid: nat, text: string, a: Attempt): Message {
    Message(id, sid, Assistant, text, Some([(StrKey("score"), Int(a.analysis.score))]))
  }

  /**
    * The messages `analyze` stores: the user's opening and, unless the
    * fallback throws, the assistant's first reply.
    */
  function OpeningMessages(next: nat, sid: nat, message: string, a: Attempt, ai: seq<Turn> -> Result<string, string>): seq<Message> {
    Exchange(next, sid, message, OpeningAnswer(message, a, ai), a)
  }

  /** The opening exchange once the assistant's answer is known. */
  function Exchange(next: nat, sid: nat, message: string, answer: Result<string, string>, a: Attempt): seq<Message> {
    var user := Message(next, sid, User, Opening(message), None);
    match answer
    case Success(text) => [user, AssistantOpening(next + 1, sid, text, a)]
    case Failure(_) => [user]
  }

  /**
    * `analyze` opens a sound session and sends the AI only the opening turn;
    * the opening is never blank; the first reply is stored exactly when the
    * answer was found, is never failed, and when the AI call throws it leads
    * with the analysis score.
    */
  lemma OpeningShape(id: nat, next: nat, userId: int, path: string, message: string, a: Attempt, ai: seq<Turn> -> Result<string, string>)
    ensures Sound(OpenedSession(id, userId, path, a))
    ensures var ms := OpeningMessages(next, id, message, a, ai);
      && 1 <= |ms| <= 2 && ms[0].role == User && ms[0].content != "" && ms[0].id == next
      && (ms[0].content == message <==> TruthyString(message))
      && (|ms| == 2 <==> OpeningAnswer(message, a, ai).Success?)
      && (|ms| == 2 ==> ms[1].role == Assistant && ms[1].id == next + 1 && !IsFailed(ms[1].meta))
      && (|ms| == 2 && ai([Turn(User, ms[0].content)]).Failure? ==> StartsWith(ms[1].content, ScoreLine(a)))
      && (|ms| == 1 ==> ai([Turn(User, ms[0].content)]).Failure? && ContextLines(a.contextFeedback).Failure?)
  {
    var ms := OpeningMessages(next, id, message, a, ai);
    assert !TruthyString(message) ==> message != DefaultOpening;
    var meta := [(StrKey("score"), Int(a.analysis.score))];
    assert !HasKey(meta, StrKey("status"));
  }

  /** One `outfit_chat_attachments` row (the file's MIME type and size are not modelled). */
  datatype Attachment = Attachment(id: nat, sessionId: nat, messageId: nat, kind: string, path: string)

  /** The image attached to the user's opening message. */
  function OpeningAttachment(id: nat, sid: nat, messageId: nat, path: string): Attachment {
    Attachment(id, sid, messageId, "image", path)
  }

  /**
    * The answer of `analyze`. `AnalyzeUncaught` is an exception that escapes
    * the controller, which Laravel's handler answers with a 500.
    */
  datatype AnalyzeResponse =
    | AnalyzeFailed(status: int, message: string, processId: nat, retryAfter: Option<nat>)
    | SessionCreated(session: Session, detected: seq<DetectedItems.Summary>, processId: nat, opening: seq<Message>)
    | AnalyzeUncaught(error: string)

  /** The detected-item rows `analyze` adds for a new session. */
  function SessionRows(userId: int, path: string, sid: nat, pid: nat, a: Attempt, nextId: nat): seq<DetectedItems.Row> {
    var src := DetectedItems.Source(userId, DetectedSourceType, sid, pid, path);
    DetectedItems.RowsFor(src, DetectedItems.DetectedOf(DetectedItems.Categories(a.vision)), DetectedItems.ColorsOf(a.vision), nextId)
  }

  /**
    * The record `analyze` leaves: `Closed` of the attempt, and, once the
    * opening answer is found, that answer as `assistant_text`.
    */
  function ChatRecord(pid: nat, userId: int, path: string, attempt: Result<Attempt, string>, sid: nat,
                      message: string, ai: seq<Turn> -> Result<string, string>): Process {
    var p := AnalysisProcess.Closed(Opened(pid, userId, ChatKind, path), attempt, SessionLink(sid));
    if attempt.Success? && !RowsThrow(attempt.value) then Answered(p, OpeningAnswer(message, attempt.value, ai))
    else p
  }

  /** `$process->assistant_text = $assistantText` once the answer is found. */
  function Answered(p: Process, answer: Result<string, string>): Process {
    if answer.Success? then p.(assistantText := Some(answer.value)) else p
  }

  /**
    * The chat's record moves as every analysis record does; its
    * `assistant_text` is the text of the assistant's first message, and is
    * set exactly when that message is stored.
    */
  lemma ChatRecordShape(pid: nat, userId: int, path: string, attempt: Result<Attempt, string>, sid: nat, next: nat,
                        message: string, ai: seq<Turn> -> Result<string, string>)
    ensures var p := ChatRecord(pid, userId, path, attempt, sid, message, ai);
      var q := AnalysisProcess.Closed(Opened(pid, userId, ChatKind, path), attempt, SessionLink(sid));
      && p == q.(assistantText := p.assistantText)
      && (p.assistantText.Some? <==>
            attempt.Success? && !RowsThrow(attempt.value) && |OpeningMessages(next, sid, message, attempt.value, ai)| == 2)
      && (p.assistantText.Some? ==> p.assistantText.value == OpeningMessages(next, sid, message, attempt.value, ai)[1].content)
  {
  }

  /** The response of `analyze` after a successful attempt. */
  function BeginReply(session: Session, rows: seq<DetectedItems.Row>, pid: nat, opening: seq<Message>, a: Attempt,
                      message: string, ai: seq<Turn> -> Result<string, string>): AnalyzeResponse {
    if RowsThrow(a) || OpeningAnswer(message, a, ai).Failure? then AnalyzeUncaught(ArrayToString)
    else SessionCreated(session, DetectedItems.Summaries(rows), pid, opening)
  }

  /** Attachment ids follow the row order. */
  predicate AttachmentIds(attachments: seq<Attachment>) {
    forall i :: 0 <= i < |attachments| ==> attachments[i].id == i + 1
  }

  /** Row ids follow the row order: the i-th row has id i + 1. */
  predicate SessionIds(sessions: seq<Session>) {
    forall i :: 0 <= i < |sessions| ==> sessions[i].id == i + 1
  }

  /** Session ids follow the row order and every session is sound. */
  predicate SessionTable(sessions: seq<Session>) {
    SessionIds(sessions) && forall i :: 0 <= i < |sessions| ==> Sound(sessions[i])
  }

  lemma SessionTableAppend(sessions: seq<Session>, s: Session)
    requires SessionTable(sessions) && s.id == |sessions| + 1 && Sound(s)
    ensures SessionTable(sessions + [s])
  {
  }

  lemma SessionTableUpdate(sessions: seq<Session>, i: nat, s: Session)
    requires SessionTable(sessions) && i < |sessions| && s.id == sessions[i].id && Sound(s)
    ensures SessionTable(sessions[i := s])
  {
  }

  predicate MessageIds(messages: seq<Message>) {
    forall i :: 0 <= i < |messages| ==> messages[i].id == i + 1
  }

  lemma MessageIdsAppend(messages: seq<Message>, m: Message)
    requires MessageIds(messages) && m.id == |messages| + 1
    ensures MessageIds(messages + [m])
  {
  }

  lemma MessageIdsUpdate(messages: seq<Message>, i: nat, m: Message)
    requires MessageIds(messages) && i < |messages| && m.id == messages[i].id
    ensures MessageIds(messages[i := m])
  {
  }

  class ChatController {
    var sessions: seq<Session>
    var messages: seq<Message>
    var attachments: seq<Attachment>
    var processes: seq<Process>
    const detected: DetectedItems.DetectedItemTable

    /** Ids follow row order in every table, and every session is sound. */
    predicate Valid()
      reads this, detected
    {
      ProcessIds(processes) && SessionTable(sessions) && MessageIds(messages) && AttachmentIds(attachments) && detected.Valid()
    }

    constructor ()
      ensures Valid() && sessions == [] && messages == [] && attachments == [] && processes == [] && detected.rows == []
      ensures fresh(detected)
    {
      sessions := [];
      messages := [];
      attachments := [];
      processes := [];
      detected := new DetectedItems.DetectedItemTable();
    }

    /** `analyze` when the `try` block threw: the record is opened, closed as failed, and the error mapped. */
    method Abandon(userId: int, path: string, msg: string) returns (r: AnalyzeResponse)
      requires Valid()
      modifies this
      ensures Valid()
      ensures var pid := |old(processes)| + 1;
        && processes == old(processes) + [FailedWith(Opened(pid, userId, ChatKind, path), msg)]
        && r == AnalyzeFailed(ErrorReply(msg).0, PublicMessage(ErrorReply(msg).0), pid, ErrorReply(msg).1)
      ensures sessions == old(sessions) && messages == old(messages) && attachments == old(attachments)
    {
      var pid := |processes| + 1;
      var p := Opened(pid, userId, ChatKind, path);
      ProcessIdsAppend(processes, p);
      processes := processes + [p];
      ProcessIdsUpdate(processes, pid - 1, FailedWith(p, msg));
      processes := processes[pid - 1 := FailedWith(p, msg)];
      var (status, retryAfter) := ErrorReply(msg);
      r := AnalyzeFailed(status, PublicMessage(status), pid, retryAfter);
    }

    /**
      * The opening exchange up to the assistant's text: the user's message,
      * its image attachment, then the AI's reply or, when that call throws,
      * the fallback text (a failure when the fallback throws too).
      */
    method Converse(sid: nat, path: string, message: string, a: Attempt, ai: seq<Turn> -> Result<string, string>)
      returns (user: Message, answer: Result<string, string>)
      requires MessageIds(messages) && AttachmentIds(attachments)
      modifies this
      ensures user == Message(|old(messages)| + 1, sid, User, Opening(message), None)
      ensures messages == old(messages) + [user] && MessageIds(messages)
      ensures attachments == old(attachments) + [OpeningAttachment(|old(attachments)| + 1, sid, user.id, path)]
      ensures AttachmentIds(attachments)
      ensures answer == OpeningAnswer(message, a, ai)
      ensures sessions == old(sessions) && processes == old(processes)
    {
      var text := Opening(message);
      user := Message(|messages| + 1, sid, User, text, None);
      MessageIdsAppend(messages, user);
      messages := messages + [user];
      attachments := attachments + [OpeningAttachment(|attachments| + 1, sid, user.id, path)];
      var reply := ai([Turn(User, text)]);
      if reply.Success? {
        answer := reply;
      } else {
        answer := FallbackText(a);
      }
    }

    /** `OutfitChatMessage::create` of the assistant's first reply, with the score in `meta`. */
    method PostOpening(sid: nat, text: string, a: Attempt) returns (assistant: Message)
      requires MessageIds(messages)
      modifies this
      ensures assistant == AssistantOpening(|old(messages)| + 1, sid, text, a)
      ensures messages == old(messages) + [assistant] && MessageIds(messages)
      ensures sessions == old(sessions) && processes == old(processes) && attachments == old(attachments)
    {
      assistant := AssistantOpening(|messages| + 1, sid, text, a);
      MessageIdsAppend(messages, assistant);
      messages := messages + [assistant];
    }

    /**
      * Once the answer is found: `assistant_text` on the record, which is the
      * last one, and the assistant's first message.
      */
    method Reply(pid: nat, sid: nat, text: string, a: Attempt) returns (assistant: Message)
      requires ProcessIds(processes) && MessageIds(messages) && 1 <= pid == |processes|
      modifies this
      ensures assistant == AssistantOpening(|old(messages)| + 1, sid, text, a)
      ensures processes == old(processes)[pid - 1 := old(processes)[pid - 1].(assistantText := Some(text))]
      ensures ProcessIds(processes)
      ensures messages == old(messages) + [assistant] && MessageIds(messages)
      ensures sessions == old(sessions) && attachments == old(attachments)
    {
      ghost var before := processes[..pid - 1];
      var completed := processes[pid - 1];
      assert processes == before + [completed];
      SetProcess(before, completed.(assistantText := Some(text)));
      assistant := PostOpening(sid, text, a);
    }

    /**
      * The first half of `analyze` after a successful attempt: the session,
      * its detected rows and the completed record. `items` is `None` when a
      * label that is an array threw while the rows were written; the record
      * then stays `processing`.
      */
    method OpenSession(userId: int, path: string, a: Attempt) returns (pid: nat, session: Session, items: Option<seq<DetectedItems.Summary>>)
      requires Valid()
      modifies this, detected
      ensures Valid()
      ensures pid == |old(processes)| + 1 && session == OpenedSession(|old(sessions)| + 1, userId, path, a)
      ensures processes == old(processes) + [AnalysisProcess.Closed(Opened(pid, userId, ChatKind, path), Success(a), SessionLink(session.id))]
      ensures sessions == old(sessions) + [session] && messages == old(messages) && attachments == old(attachments)
      ensures detected.rows == old(detected.rows) + SessionRows(userId, path, session.id, pid, a, old(detected.nextId))
      ensures items.None? <==> RowsThrow(a)
      ensures items.Some? ==> items.value == DetectedItems.Summaries(SessionRows(userId, path, session.id, pid, a, old(detected.nextId)))
    {
      ghost var before := processes;
      pid := OpenProcess(userId, path);
      var p := Opened(pid, userId, ChatKind, path);
      assert processes[..|before|] == before;
      SetProcess(before, Recorded(p, a));
      session := OpenedSession(|sessions| + 1, userId, path, a);
      SessionTableAppend(sessions, session);
      sessions := sessions + [session];
      items := detected.Persist(DetectedItems.Source(userId, DetectedSourceType, session.id, pid, path), a.vision);
      if items.Some? {
        assert processes[..|before|] == before;
        SetProcess(before, CompletedWith(Recorded(p, a), SessionLink(session.id)));
      }
    }

    /**
      * The second half of `analyze` after a successful attempt: the opening
      * exchange, and the answer saved as the record's `assistant_text`.
      * `None` when the fallback threw before the answer was found.
      */
    method Greet(pid: nat, sid: nat, path: string, a: Attempt, message: string,
                 ai: seq<Turn> -> Result<string, string>) returns (answer: Result<string, string>, opening: Option<seq<Message>>)
      requires Valid() && 1 <= pid == |processes|
      modifies this
      ensures Valid()
      ensures answer == OpeningAnswer(message, a, ai)
      ensures processes == old(processes)[pid - 1 := Answered(old(processes)[pid - 1], answer)]
      ensures messages == old(messages) + Exchange(|old(messages)| + 1, sid, message, answer, a)
      ensures attachments == old(attachments) + [OpeningAttachment(|old(attachments)| + 1, sid, |old(messages)| + 1, path)]
      ensures sessions == old(sessions)
      ensures opening.Some? <==> answer.Success?
      ensures opening.Some? ==> opening.value == Exchange(|old(messages)| + 1, sid, message, answer, a)
    {
      var user;
      user, answer := Converse(sid, path, message, a, ai);
      if answer.Failure? {
        return answer, None;
      }
      var assistant := Reply(pid, sid, answer.value, a);
      opening := Some([user, assistant]);
    }

    /**
      * `analyze` when the `try` block succeeded: the session, its detected
      * rows, the completed record, the opening exchange. A label that is an
      * array throws while the rows are written, and a feedback row whose
      * status or message is an array throws in the fallback: the exception
      * escapes, and what was written before it stays.
      */
    method Begin(userId: int, path: string, a: Attempt, message: string, ai: seq<Turn> -> Result<string, string>)
      returns (r: AnalyzeResponse)
      requires Valid()
      modifies this, detected
      ensures Valid()
      ensures var pid := |old(processes)| + 1;
        var sid := |old(sessions)| + 1;
        var rows := SessionRows(userId, path, sid, pid, a, old(detected.nextId));
        var opening := OpeningMessages(|old(messages)| + 1, sid, message, a, ai);
        && processes == old(processes) + [ChatRecord(pid, userId, path, Success(a), sid, message, ai)]
        && sessions == old(sessions) + [OpenedSession(sid, userId, path, a)]
        && detected.rows == old(detected.rows) + rows
        && messages == old(messages) + (if RowsThrow(a) then [] else opening)
        && attachments == old(attachments)
             + (if RowsThrow(a) then [] else [OpeningAttachment(|old(attachments)| + 1, sid, |old(messages)| + 1, path)])
        && r == BeginReply(OpenedSession(sid, userId, path, a), rows, pid, opening, a, message, ai)
    {
      var pid, session, items := OpenSession(userId, path, a);
      if items.None? {
        assert ChatRecord(pid, userId, path, Success(a), session.id, message, ai) == processes[pid - 1];
        return AnalyzeUncaught(ArrayToString);
      }
      var answer, opening := Greet(pid, session.id, path, a, message, ai);
      if opening.None? {
        return AnalyzeUncaught(ArrayToString);
      }
      r := SessionCreated(session, items.value, pid, opening.value);
    }

    /** `OutfitAnalysisProcess::create([... 'status' => 'processing'])`: the record gets the next id. */
    method OpenProcess(userId: int, path: string) returns (pid: nat)
      requires ProcessIds(processes)
      modifies this
      ensures pid == |old(processes)| + 1
      ensures processes == old(processes) + [Opened(pid, userId, ChatKind, path)] && ProcessIds(processes)
      ensures sessions == old(sessions) && messages == old(messages) && attachments == old(attachments)
    {
      pid := |processes| + 1;
      ProcessIdsAppend(processes, Opened(pid, userId, ChatKind, path));
      processes := processes + [Opened(pid, userId, ChatKind, path)];
    }

    /** `$process->save()` with new fields for the record just opened, the last one. */
    method SetProcess(ghost before: seq<Process>, p: Process)
      requires ProcessIds(processes) && |processes| == |before| + 1 && processes[..|before|] == before
      requires p.id == |processes|
      modifies this
      ensures processes == before + [p] && ProcessIds(processes)
      ensures sessions == old(sessions) && messages == old(messages) && attachments == old(attachments)
    {
      ProcessIdsUpdate(processes, |processes| - 1, p);
      processes := processes[|processes| - 1 := p];
      assert processes == before + [p];
    }

    /**
      * `analyze`, given the outcome of the vision call (the payload, or the
      * message it threw), of the context-feedback call, and the AI's reply
      * to a context.
      */
    method Analyze(userId: int, path: string, message: string, vision: Result<Entries, string>,
                   feedback: Result<Value, string>, ai: seq<Turn> -> Result<string, string>)
      returns (r: AnalyzeResponse)
      requires Valid()
      modifies this, detected
      ensures Valid()
      ensures var pid := |old(processes)| + 1;
        var attempt := TryAnalyze(vision, feedback);
        var sid := |old(sessions)| + 1;
        && processes == old(processes) + [ChatRecord(pid, userId, path, attempt, sid, message, ai)]
        && (attempt.Failure? ==>
              && sessions == old(sessions) && messages == old(messages) && attachments == old(attachments)
              && detected.rows == old(detected.rows)
              && r == AnalyzeFailed(ErrorReply(attempt.error).0, PublicMessage(ErrorReply(attempt.error).0), pid,
                                    ErrorReply(attempt.error).1))
        && (attempt.Success? ==>
              var a := attempt.value;
              var rows := SessionRows(userId, path, sid, pid, a, old(detected.nextId));
              var opening := OpeningMessages(|old(messages)| + 1, sid, message, a, ai);
              && sessions == old(sessions) + [OpenedSession(sid, userId, path, a)]
              && detected.rows == old(detected.rows) + rows
              && messages == old(messages) + (if RowsThrow(a) then [] else opening)
              && attachments == old(attachments)
                   + (if RowsThrow(a) then [] else [OpeningAttachment(|old(attachments)| + 1, sid, |old(messages)| + 1, path)])
              && r == BeginReply(OpenedSession(sid, userId, path, a), rows, pid, opening, a, message, ai))
    {
      var attempt := TryAnalyze(vision, feedback);
      if attempt.Failure? {
        r := Abandon(userId, path, attempt.error);
      } else {
        r := Begin(userId, path, attempt.value, message, ai);
      }
    }

    /** `$userMsg->meta = $meta; $userMsg->save()` with the failure keys written. */
    method MarkFailed(i: nat, msg: string) returns (user: Message)
      requires Valid() && i < |messages|
      modifies this
      ensures Valid()
      ensures user == old(messages)[i].(meta := Some(FailureMeta(old(messages)[i].meta, msg)))
      ensures messages == old(messages)[i := user] && sessions == old(sessions) && processes == old(processes)
      ensures attachments == old(attachments)
    {
      user := messages[i].(meta := Some(FailureMeta(messages[i].meta, msg)));
      MessageIdsUpdate(messages, i, user);
      messages := messages[i := user];
    }

    /** The `catch` block of `storeMessage`: the user message is stored, or updated, as failed. */
    method RecordFailure(sid: nat, retried: Option<nat>, text: string, msg: string) returns (reply: ChatReply)
      requires Valid() && 1 <= sid <= |sessions| && (retried.Some? ==> retried.value < |messages|)
      modifies this
      ensures Valid()
      ensures var r := AnswerFailed(old(sessions)[sid - 1], old(messages), retried, text, msg);
        sessions == old(sessions) && messages == r.messages && reply == r.reply && processes == old(processes)
      ensures attachments == old(attachments)
    {
      var s := sessions[sid - 1];
      var status := ChatErrorStatus(msg);
      var user: Message;
      if retried.Some? {
        user := MarkFailed(retried.value, msg);
      } else {
        user := Message(|messages| + 1, s.id, User, text, Some(FailureMeta(None, msg)));
        MessageIdsAppend(messages, user);
        messages := messages + [user];
      }
      reply := ReplyFailed(status, ChatPublicMessage(status), RetryAfter.InlineRetryAfter(msg), user, s.turnsUsed);
    }

    /** The end of `storeMessage` after a reply: user and assistant messages, one more turn. */
    method RecordReply(sid: nat, retried: Option<nat>, text: string, answer: string) returns (reply: ChatReply)
      requires Valid() && 1 <= sid <= |sessions| && (retried.Some? ==> retried.value < |messages|)
      requires sessions[sid - 1].turnsUsed < MaxTurns
      modifies this
      ensures Valid()
      ensures var r := AnswerReplied(old(sessions)[sid - 1], old(messages), retried, text, answer);
        sessions == old(sessions)[sid - 1 := r.session] && messages == r.messages && reply == r.reply
        && processes == old(processes)
      ensures attachments == old(attachments)
    {
      var s := sessions[sid - 1];
      var user: Message;
      if retried.Some? {
        user := messages[retried.value].(meta := Cleared(messages[retried.value].meta));
        MessageIdsUpdate(messages, retried.value, user);
        messages := messages[retried.value := user];
      } else {
        user := Message(|messages| + 1, s.id, User, text, None);
        MessageIdsAppend(messages, user);
        messages := messages + [user];
      }
      var assistant := Message(|messages| + 1, s.id, Assistant, answer, None);
      MessageIdsAppend(messages, assistant);
      messages := messages + [assistant];
      var turns := s.turnsUsed + 1;
      var s' := s.(turnsUsed := turns, status := if turns >= MaxTurns then Closed else s.status);
      SessionTableUpdate(sessions, sid - 1, s');
      sessions := sessions[sid - 1 := s'];
      reply := Replied(user, assistant, turns);
    }

    /**
      * `storeMessage` on the session with id `sid` (route binding has found
      * it), proved against `StoreMessageOf`.
      */
    method StoreMessage(sid: nat, userId: int, retryId: Option<int>, content: string, ai: seq<Turn> -> Result<string, string>)
      returns (reply: ChatReply)
      requires Valid() && 1 <= sid <= |sessions|
      modifies this
      ensures Valid()
      ensures var r := StoreMessageOf(old(sessions)[sid - 1], old(messages), userId, retryId, content, ai);
        && sessions == old(sessions)[sid - 1 := r.session] && messages == r.messages && reply == r.reply
        && processes == old(processes) && attachments == old(attachments)
    {
      var s := sessions[sid - 1];
      if s.userId != userId {
        return Refused(404, NotFoundReply, None);
      }
      if s.turnsUsed >= MaxTurns {
        return Refused(429, LimitReply, Some(s.turnsUsed));
      }
      var retried: Option<nat> := None;
      var text := content;
      if IsRetry(retryId) {
        retried := FindUserMessage(messages, s.id, retryId.value);
        if retried.None? {
          return Refused(404, MessageNotFoundReply, None);
        }
        if !IsFailed(messages[retried.value].meta) {
          return Refused(422, NotRetryableReply, None);
        }
        text := messages[retried.value].content;
      } else if Trim(content, PhpTrim) == "" {
        return Refused(422, ContentRequiredReply, None);
      }
      if IsRetry(retryId) {
        RetryStep(s, messages, userId, retryId, content, retried.value, ai);
      } else {
        TrimEmptyIffAllSpace(content, PhpTrim);
        FreshStep(s, messages, userId, content, ai);
      }
      var result := ai(Context(messages, s.id, text));
      if result.Failure? {
        reply := RecordFailure(sid, retried, text, result.error);
      } else {
        reply := RecordReply(sid, retried, text, result.value);
      }
    }
  }
}

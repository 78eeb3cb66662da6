/** Anonymous feedback: the repository as operations on the stored sequence,
    the collecting service and the controller's request handling. */
module AnonymousFeedbacks {
  import opened Wrappers
  import opened Text
  import opened Ordering
  import opened Sentiment

  datatype AnonymousFeedback = AnonymousFeedback(
    id: int,
    feedbackText: string,
    sentiment: string,
    createdAt: int,
    ipAddress: Option<string>,
    userAgent: Option<string>)

  function CreatedAt(f: AnonymousFeedback): int {
    f.createdAt
  }

  // ---------------------------------------------------------------------------
  // Repository

  /** `AddAsync`: the stored sequence gains the entity at its end; the entity
      itself is returned. */
  function Add(store: seq<AnonymousFeedback>, feedback: AnonymousFeedback): (r: (seq<AnonymousFeedback>, AnonymousFeedback))
    ensures r.1 == feedback
    ensures |r.0| == |store| + 1 && r.0[..|store|] == store && r.0[|store|] == feedback
  {
    (store + [feedback], feedback)
  }

  predicate NewestFirst(fs: seq<AnonymousFeedback>) {
    forall i, j :: 0 <= i < j < |fs| ==> fs[i].createdAt >= fs[j].createdAt
  }

  /** `GetAllAsync` */
  function GetAll(store: seq<AnonymousFeedback>): (r: seq<AnonymousFeedback>)
    ensures multiset(r) == multiset(store)
    ensures NewestFirst(r)
  {
    SortDesc(store, CreatedAt)
  }

  /** `GetByIdAsync` */
  function GetById(store: seq<AnonymousFeedback>, id: int): (r: Option<AnonymousFeedback>)
    ensures r.Some? ==> r.value in store && r.value.id == id
    ensures r.None? <==> forall i :: 0 <= i < |store| ==> store[i].id != id
  {
    if |store| == 0 then None
    else if store[0].id == id then Some(store[0])
    else GetById(store[1..], id)
  }

  function WithSentiment(store: seq<AnonymousFeedback>, sentiment: string): (r: seq<AnonymousFeedback>)
    ensures forall f :: f in r <==> f in store && f.sentiment == sentiment
  {
    if |store| == 0 then []
    else
      var init, last := store[..|store| - 1], store[|store| - 1];
      assert store == init + [last];
      WithSentiment(init, sentiment) + (if last.sentiment == sentiment then [last] else [])
  }

  /** `GetBySentimentAsync`: exact comparison of the label. */
  function GetBySentiment(store: seq<AnonymousFeedback>, sentiment: string): (r: seq<AnonymousFeedback>)
    ensures forall f :: f in r <==> f in store && f.sentiment == sentiment
    ensures NewestFirst(r)
  {
    var matching := WithSentiment(store, sentiment);
    var r := SortDesc(matching, CreatedAt);
    assert forall f :: f in r <==> f in matching by {
      forall f ensures f in r <==> f in matching {
        assert f in r <==> f in multiset(r);
      }
    }
    r
  }

  function InRange(store: seq<AnonymousFeedback>, startDate: int, endDate: int): (r: seq<AnonymousFeedback>)
    ensures forall f :: f in r <==> f in store && startDate <= f.createdAt <= endDate
  {
    if |store| == 0 then []
    else
      var init, last := store[..|store| - 1], store[|store| - 1];
      assert store == init + [last];
      InRange(init, startDate, endDate) + (if startDate <= last.createdAt <= endDate then [last] else [])
  }

  /** `GetByDateRangeAsync`: both ends inclusive. */
  function GetByDateRange(store: seq<AnonymousFeedback>, startDate: int, endDate: int): (r: seq<AnonymousFeedback>)
    ensures forall f :: f in r <==> f in store && startDate <= f.createdAt <= endDate
    ensures NewestFirst(r)
  {
    var matching := InRange(store, startDate, endDate);
    var r := SortDesc(matching, CreatedAt);
    assert forall f :: f in r <==> f in matching by {
      forall f ensures f in r <==> f in matching {
        assert f in r <==> f in multiset(r);
      }
    }
    r
  }

  /** A reversed range finds nothing. */
  lemma ReversedRangeIsEmpty(store: seq<AnonymousFeedback>, startDate: int, endDate: int)
    requires startDate > endDate
    ensures GetByDateRange(store, startDate, endDate) == []
  {
  }

  /** Each stored feedback is listed once by the sentiment query of its own
      label: the three labels of the classifier split the stored feedback. */
  lemma SentimentQueriesCover(store: seq<AnonymousFeedback>, f: AnonymousFeedback)
    requires f in store
    ensures f in GetBySentiment(store, f.sentiment)
    ensures forall s :: s != f.sentiment ==> f !in GetBySentiment(store, s)
  {
  }

  // ---------------------------------------------------------------------------
  // Service

  /** `CollectFeedbackAsync(feedback, ipAddress, userAgent)`. `analyse` is the
      injected sentiment analyser: a failure is the exception it throws, which
      propagates and leaves the store as it was. The database assigns the
      record its identity, `newId`. */
  function CollectFeedback(analyse: string -> Result<string, string>, store: seq<AnonymousFeedback>, text: string,
                           ipAddress: Option<string>, userAgent: Option<string>, now: int, newId: int)
    : (r: Result<seq<AnonymousFeedback>, string>)
    ensures analyse(text).Failure? ==> r == Failure(analyse(text).error)
    ensures analyse(text).Success? ==> r.Success? && |r.value| == |store| + 1 && r.value[..|store|] == store
    ensures analyse(text).Success? ==>
      var f := r.value[|store|];
      f.id == newId && f.feedbackText == text && f.sentiment == analyse(text).value && f.createdAt == now
      && f.ipAddress == ipAddress && f.userAgent == userAgent
  {
    match analyse(text)
    case Failure(e) => Failure(e)
    case Success(sentiment) =>
      Success(Add(store, AnonymousFeedback(newId, text, sentiment, now, ipAddress, userAgent)).0)
  }

  /** `CollectFeedbackAsync(feedback)`: no address and no user agent. */
  function CollectFeedbackText(analyse: string -> Result<string, string>, store: seq<AnonymousFeedback>, text: string,
                               now: int, newId: int): (r: Result<seq<AnonymousFeedback>, string>)
    ensures r.Success? ==> |r.value| == |store| + 1 && r.value[|store|].ipAddress.None? && r.value[|store|].userAgent.None?
    ensures r == CollectFeedback(analyse, store, text, None, None, now, newId)
  {
    CollectFeedback(analyse, store, text, None, None, now, newId)
  }

  /** A collected feedback is found under the identity it was stored with,
      as long as that identity was fresh. */
  lemma CollectedFeedbackIsFound(analyse: string -> Result<string, string>, store: seq<AnonymousFeedback>, text: string,
                                 ipAddress: Option<string>, userAgent: Option<string>, now: int, newId: int)
    requires analyse(text).Success?
    requires forall i :: 0 <= i < |store| ==> store[i].id != newId
    ensures var r := CollectFeedback(analyse, store, text, ipAddress, userAgent, now, newId);
      GetById(r.value, newId) == Some(r.value[|store|])
  {
    var after := CollectFeedback(analyse, store, text, ipAddress, userAgent, now, newId).value;
    assert after == store + [after[|store|]];
    var found := GetById(after, newId);
    assert found.Some?;
    assert found.value !in store;
  }

  /** `GetAllFeedbacksAsync` returns the repository's answer. */
  function GetAllFeedbacks(store: seq<AnonymousFeedback>): (r: seq<AnonymousFeedback>)
    ensures r == GetAll(store)
  {
    GetAll(store)
  }

  /** `GetFeedbacksBySentimentAsync` passes the label through. */
  function GetFeedbacksBySentiment(store: seq<AnonymousFeedback>, sentiment: string): (r: seq<AnonymousFeedback>)
    ensures r == GetBySentiment(store, sentiment)
  {
    GetBySentiment(store, sentiment)
  }

  /** As registered, the service's analyser is the interface method of the
      sentiment service, which always throws: no feedback is ever stored. */
  lemma CollectFeedbackAsWiredAlwaysFails(store: seq<AnonymousFeedback>, text: string, ip: Option<string>, ua: Option<string>,
                                          now: int, newId: int)
    ensures CollectFeedback(AnalyzeSentiment, store, text, ip, ua, now, newId) == Failure(NotImplementedMessage)
  {
  }

  /** With the keyword classifier behind the interface, every collected
      feedback is stored with its classification. */
  lemma CollectFeedbackIntended(store: seq<AnonymousFeedback>, text: string, ip: Option<string>, ua: Option<string>,
                                now: int, newId: int)
    ensures var r := CollectFeedback(AnalyzeSentimentIntended, store, text, ip, ua, now, newId);
      && r.Success?
      && r.value[..|store|] == store
      && r.value[|store|].sentiment == AnalizeSentiment(text)
      && r.value[|store|].sentiment in {Positive, Negative, Neutral}
  {
  }

  // ---------------------------------------------------------------------------
  // Controller

  /** `GetClientIpAddress` over the first `X-Forwarded-For` value, the first
      `X-Real-IP` value and the connection's remote address. */
  function ClientIpAddress(forwardedFor: Option<string>, realIp: Option<string>, remote: Option<string>): (ip: string)
    ensures !IsNullOrEmpty(forwardedFor) ==> ip == Trim(BeforeFirst(forwardedFor.value, ','))
    ensures IsNullOrEmpty(forwardedFor) && !IsNullOrEmpty(realIp) ==> ip == realIp.value
    ensures IsNullOrEmpty(forwardedFor) && IsNullOrEmpty(realIp) ==>
      ip == (if remote == Some("::1") then "127.0.0.1" else remote.GetOr("Unknown"))
  {
    if !IsNullOrEmpty(forwardedFor) then Trim(BeforeFirst(forwardedFor.value, ','))
    else if !IsNullOrEmpty(realIp) then realIp.value
    else if remote == Some("::1") then "127.0.0.1"
    else match remote
      case Some(address) => address
      case None => "Unknown"
  }

  /** The forwarded address never carries a comma or surrounding blanks. */
  lemma ForwardedAddressIsFirstHop(forwardedFor: string, realIp: Option<string>, remote: Option<string>)
    requires |forwardedFor| > 0
    ensures var ip := ClientIpAddress(Some(forwardedFor), realIp, remote);
      && ',' !in ip
      && (|ip| > 0 ==> !IsWhiteSpace(ip[0]) && !IsWhiteSpace(ip[|ip| - 1]))
  {
    var head := BeforeFirst(forwardedFor, ',');
    var ip := Trim(head);
    assert ClientIpAddress(Some(forwardedFor), realIp, remote) == ip;
    var i, j :| 0 <= i <= j <= |head| && ip == head[i..j];
    SliceKeepsAbsence(head, i, j, ',');
  }

  lemma SliceKeepsAbsence(s: string, i: int, j: int, c: char)
    requires 0 <= i <= j <= |s| && c !in s
    ensures c !in s[i..j]
  {
  }

  datatype SubmitOutcome =
    | BadRequest(message: string)
    | Ok(message: string)
    | ServerError(message: string, error: string)

  /** `SubmitFeedback`: a blank message is refused before anything is
      collected; a failure of the collection is reported as a server error. */
  function SubmitFeedback(analyse: string -> Result<string, string>, store: seq<AnonymousFeedback>, message: Option<string>,
                          forwardedFor: Option<string>, realIp: Option<string>, remote: Option<string>,
                          userAgent: string, now: int, newId: int): (r: (SubmitOutcome, seq<AnonymousFeedback>))
    ensures IsNullOrWhiteSpace(message) ==> r == (BadRequest("Mensagem de feedback é obrigatória."), store)
    ensures !IsNullOrWhiteSpace(message) ==>
      match CollectFeedback(analyse, store, message.value, Some(ClientIpAddress(forwardedFor, realIp, remote)), Some(userAgent), now, newId)
      case Success(stored) => r == (Ok("Feedback anônimo enviado com sucesso!"), stored)
      case Failure(e) => r == (ServerError("Erro interno do servidor", e), store)
  {
    if IsNullOrWhiteSpace(message) then (BadRequest("Mensagem de feedback é obrigatória."), store)
    else
      var ip := ClientIpAddress(forwardedFor, realIp, remote);
      match CollectFeedback(analyse, store, message.value, Some(ip), Some(userAgent), now, newId)
      case Success(stored) => (Ok("Feedback anônimo enviado com sucesso!"), stored)
      case Failure(e) => (ServerError("Erro interno do servidor", e), store)
  }

  /** Only a successful submission changes the store, by exactly one entry. */
  lemma SubmitFeedbackStoresAtMostOne(analyse: string -> Result<string, string>, store: seq<AnonymousFeedback>, message: Option<string>,
                                      forwardedFor: Option<string>, realIp: Option<string>, remote: Option<string>,
                                      userAgent: string, now: int, newId: int)
    ensures var r := SubmitFeedback(analyse, store, message, forwardedFor, realIp, remote, userAgent, now, newId);
      && (r.0.Ok? <==> |r.1| == |store| + 1)
      && (!r.0.Ok? ==> r.1 == store)
      && (r.0.Ok? ==> r.1[..|store|] == store && r.1[|store|].feedbackText == message.value)
  {
  }
}

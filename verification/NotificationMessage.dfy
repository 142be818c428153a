/** A spooled notification: what the MailProg adapter writes, what the worker accepts, and how a failed
    delivery changes it. Times are whole seconds. */
module NotificationMessage {
  import opened Wrappers
  import opened JsonText
  import opened DisplayTable
  import opened MailBody
  import opened TableReading

  const LIFETIME: int := 7200

  datatype Message = Message(
    version: int, id: string, createdAt: int, expiresAt: int, nextAttemptAt: int, attempts: int,
    region: string, topicId: string, username: string, jobId: string, mailType: string,
    title: string, body: string)

  predicate RegionCharacter(c: char) {
    'a' <= c <= 'z' || '0' <= c <= '9' || c == '-'
  }

  /** `re.match(r"^[a-z0-9-]+$", s)`: in Python, `$` also matches before a final newline. */
  predicate ValidRegion(s: string) {
    var core := if s != [] && s[|s| - 1] == '\n' then s[..|s| - 1] else s;
    core != [] && forall i :: 0 <= i < |core| ==> RegionCharacter(core[i])
  }

  predicate ValidTopic(s: string) {
    "ocid1.onstopic." <= s
  }

  /** `validate_message`, for a document whose fields have the right JSON types. */
  predicate Acceptable(m: Message) {
    && m.version == 1
    && m.createdAt >= 0 && m.expiresAt >= 0 && m.nextAttemptAt >= 0 && m.attempts >= 0
    && m.expiresAt >= m.createdAt
    && ValidRegion(m.region)
    && ValidTopic(m.topicId)
    && |Encode(m.title)| <= MAX_TITLE_BYTES
    && Fits(m.title, m.body)
  }

  // ---- producer --------------------------------------------------------------------------------

  /** What Slurm and the registry give to `queue_message`. */
  datatype Event = Event(
    region: string, topicId: string, username: string, jobId: string, mailType: string,
    subject: string, fields: seq<Option<string>>)

  function NormalizeAll(cs: Charset, fields: seq<Option<string>>): (r: seq<string>)
    ensures |r| == |fields| && forall i :: 0 <= i < |r| ==> r[i] == Normalize(cs, fields[i])
  {
    seq(|fields|, i requires 0 <= i < |fields| => Normalize(cs, fields[i]))
  }

  /** The title is the subject's, the body the best fitting table of the event's fields, and whoever reads it finds
      every label with its value. */
  ghost predicate Tells(cs: Charset, event: Event, title: string, body: string)
    requires |event.fields| == FIELDS == |LABELS|
  {
    var values := NormalizeAll(cs, event.fields);
    && title == SanitizeTitle(cs, event.subject, event.mailType, event.jobId)
    && Fitted(cs, LABELS, title, values, body)
    && Shows(body, title, Body(cs, LABELS, values), LABELS, values)
  }

  /** The message `queue_message` writes at time `now`. */
  method ComposeMessage(cs: Charset, event: Event, id: string, now: int) returns (m: Message)
    requires cs.Sane() && |event.fields| == FIELDS
    ensures m.createdAt == now && m.expiresAt == now + LIFETIME && m.nextAttemptAt == now && m.attempts == 0
    ensures m.region == event.region && m.topicId == event.topicId && m.username == event.username && m.id == id
    ensures m.jobId == event.jobId && m.mailType == event.mailType && m.version == 1
    ensures |LABELS| == FIELDS && Tells(cs, event, m.title, m.body)
    ensures Acceptable(m) <==> now >= 0 && ValidRegion(event.region) && ValidTopic(event.topicId)
  {
    var title := SanitizeTitle(cs, event.subject, event.mailType, event.jobId);
    FifteenShortLabels();
    var values := NormalizeAll(cs, event.fields);
    var body := BuildForPublish(cs, LABELS, title, values);
    forall i | 0 <= i < |values|
      ensures Tame(values[i])
    {
      NormalizedIsTame(cs, event.fields[i]);
    }
    FittedShows(cs, LABELS, title, values, body);
    m := Message(1, id, now, now + LIFETIME, now, 0, event.region, event.topicId, event.username,
                 event.jobId, event.mailType, title, body);
  }

  // ---- retries ---------------------------------------------------------------------------------

  function PowerOfTwo(n: nat): (p: nat)
    ensures p >= 1
  {
    if n == 0 then 1 else 2 * PowerOfTwo(n - 1)
  }

  /** Seconds to the next attempt once `attempts` attempts have failed. */
  function Delay(attempts: nat): (d: nat)
    requires attempts >= 1
    ensures 1 <= d <= 3600
  {
    var exponent := if attempts - 1 < 6 then attempts - 1 else 6;
    var d := 60 * PowerOfTwo(exponent);
    if d < 3600 then d else 3600
  }

  /** The update `mark_retry` writes back for an unexpired message. */
  function Retried(m: Message, now: int): Message
    requires m.attempts >= 0
  {
    m.(attempts := m.attempts + 1, nextAttemptAt := now + Delay(m.attempts + 1))
  }

  function RetriedAll(m: Message, times: seq<int>): (r: Message)
    requires m.attempts >= 0
    ensures r.attempts == m.attempts + |times|
  {
    if times == [] then m else Retried(RetriedAll(m, times[..|times| - 1]), times[|times| - 1])
  }

  /** A message the worker accepts stays acceptable through any number of failed deliveries. */
  lemma {:induction false} RetriesStayAcceptable(m: Message, times: seq<int>)
    requires Acceptable(m) && forall i :: 0 <= i < |times| ==> times[i] >= 0
    ensures Acceptable(RetriedAll(m, times))
  {
    if times != [] {
      RetriesStayAcceptable(m, times[..|times| - 1]);
      assert RetriedAll(m, times).nextAttemptAt == times[|times| - 1] + Delay(m.attempts + |times|);
    }
  }

  /** The wait starts at a minute and doubles up to an hour. */
  lemma {:induction false} DelayDoubles(n: nat)
    requires n >= 1
    ensures Delay(1) == 60
    ensures Delay(n + 1) == if 2 * Delay(n) < 3600 then 2 * Delay(n) else 3600
  {
    if n <= 5 {
      assert PowerOfTwo(n) == 2 * PowerOfTwo(n - 1);
    } else {
      assert PowerOfTwo(2) == 4;
      assert PowerOfTwo(4) == 16;
      assert PowerOfTwo(6) == 64;
      assert Delay(n + 1) == 3600;
      if n == 6 {
        assert PowerOfTwo(5) == 32;
      }
    }
  }

  /** After its last failure a message waits as long as its failures count for, and is otherwise the one queued. */
  lemma {:induction false} RetriesWait(m: Message, times: seq<int>)
    requires m.attempts == 0 && times != []
    ensures RetriedAll(m, times)
         == m.(attempts := |times|, nextAttemptAt := times[|times| - 1] + Delay(|times|))
  {
    var front := times[..|times| - 1];
    if front != [] {
      RetriesWait(m, front);
    }
  }

  /** Waiting time that `attempts` failures add up to. */
  function BackoffSum(attempts: nat): nat {
    if attempts == 0 then 0 else BackoffSum(attempts - 1) + Delay(attempts)
  }

  lemma {:induction false} BackoffGrows(a: nat, b: nat)
    requires a <= b
    ensures BackoffSum(a) <= BackoffSum(b)
    decreases b - a
  {
    if a < b {
      BackoffGrows(a, b - 1);
    }
  }

  lemma SixFitTheLifetimeSevenDoNot()
    ensures BackoffSum(6) == 3780 < LIFETIME < 7380 == BackoffSum(7)
  {
    assert PowerOfTwo(2) == 4 && PowerOfTwo(4) == 16 && PowerOfTwo(5) == 32 && PowerOfTwo(6) == 64;
    assert Delay(1) == 60 && Delay(2) == 120 && Delay(3) == 240 && Delay(4) == 480;
    assert PowerOfTwo(3) == 8;
    assert Delay(5) == 960 && Delay(6) == 1920 && Delay(7) == 3600;
    assert BackoffSum(2) == 180;
    assert BackoffSum(4) == 900;
  }

  /** Attempt times one message can see: none before it exists or once it expired, each retry no
      earlier than its back-off allows. */
  ghost predicate AttemptTimes(createdAt: int, times: seq<int>) {
    && (forall i :: 0 <= i < |times| ==> createdAt <= times[i] < createdAt + LIFETIME)
    && (forall i :: 0 < i < |times| ==> times[i] >= times[i - 1] + Delay(i))
  }

  lemma {:induction false} AttemptNotBefore(createdAt: int, times: seq<int>, i: nat)
    requires AttemptTimes(createdAt, times) && i < |times|
    ensures times[i] >= createdAt + BackoffSum(i)
  {
    if i > 0 {
      AttemptNotBefore(createdAt, times, i - 1);
    }
  }

  /** At most seven attempts, and seven do happen: the bound is exact. */
  lemma SevenAttempts(createdAt: int)
    ensures forall times :: AttemptTimes(createdAt, times) ==> |times| <= 7
    ensures exists times :: AttemptTimes(createdAt, times) && |times| == 7
  {
    SixFitTheLifetimeSevenDoNot();
    forall times | AttemptTimes(createdAt, times)
      ensures |times| <= 7
    {
      if |times| > 7 {
        AttemptNotBefore(createdAt, times, 7);
      }
    }
    var fastest := seq(7, i requires 0 <= i => createdAt + BackoffSum(i));
    forall i | 0 <= i < 7
      ensures createdAt <= fastest[i] < createdAt + LIFETIME
    {
      BackoffGrows(i, 6);
    }
    assert AttemptTimes(createdAt, fastest);
  }
}

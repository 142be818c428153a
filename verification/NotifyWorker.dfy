/** The spool and its worker (slurm_oci_notify_worker.py). The clock counts microseconds; the service
    may accept or reject any publish, and a worker may be killed at any point. File operations succeed. */
module NotifyWorker {
  import opened Wrappers
  import opened DisplayTable
  import opened MailBody
  import opened NotificationMessage
  import opened AgeOrder

  const MICROS: int := 1_000_000
  const MIN_PUBLISH_INTERVAL: int := 6_100_000
  const MAX_PUBLISH_ATTEMPTS_PER_RUN: nat := 10
  const MAX_QUEUED_MESSAGES: nat := 1200

  /** The part of the notification registry the adapter reads. */
  datatype Registry = Registry(enabled: bool, region: string, topics: map<string, string>)

  /** A spool file: one that cannot be read, one that is not a message, or a message. */
  datatype Content = Unreadable | Garbage | Readable(message: Message)

  datatype File = File(mtime: int, content: Content)

  /** How a recorded attempt ended. Garbled: the command line's output cannot be decoded, whatever the service
      did. Cut: the worker was killed before it could update the file. */
  datatype Outcome = Accepted | Rejected | Garbled | Cut

  /** One recorded publish attempt. */
  datatype Attempt = Attempt(name: string, at: int, outcome: Outcome)

  // ---- what the worker decides about one file ------------------------------------------------------

  datatype Fate = Keep | Quarantine | Expire | Discard | Due

  /** The branches of `process_queue` before the publish, in their order. */
  function FateOf(content: Content, topics: map<string, string>, now: int): Fate {
    match content
    case Unreadable => Keep
    case Garbage => Quarantine
    case Readable(m) =>
      if !Acceptable(m) then Quarantine
      else if now < m.nextAttemptAt then Keep
      else if now >= m.expiresAt then Expire
      else if !(m.username in topics && topics[m.username] == m.topicId) then Discard
      else Due
  }

  /** A valid message that is due and unexpired, and whose user still has exactly its topic. */
  predicate IsDue(content: Content, topics: map<string, string>, now: int) {
    && content.Readable? && Acceptable(content.message)
    && content.message.nextAttemptAt <= now < content.message.expiresAt
    && content.message.username in topics && topics[content.message.username] == content.message.topicId
  }

  /** Nothing to do yet: it cannot be read, or its next attempt is still to come. */
  predicate IsWaiting(content: Content, now: int) {
    content.Unreadable? || (content.Readable? && Acceptable(content.message) && now < content.message.nextAttemptAt)
  }

  /** Not a valid message, or one whose time is up. */
  predicate IsSpent(content: Content, now: int) {
    || content.Garbage?
    || (content.Readable?
        && (Acceptable(content.message) ==>
              content.message.nextAttemptAt <= now && content.message.expiresAt <= now))
  }

  /** A valid message in its time whose user no longer has that topic. */
  predicate IsOrphan(content: Content, topics: map<string, string>, now: int) {
    && content.Readable? && Acceptable(content.message)
    && content.message.nextAttemptAt <= now < content.message.expiresAt
    && !(content.message.username in topics && topics[content.message.username] == content.message.topicId)
  }

  /** When the worker looks at a file, and when it marks a failed publish of it. */
  datatype Moment = Moment(checked: int, later: int)

  function DueNames(names: seq<string>, files: map<string, File>, topics: map<string, string>,
                    moments: seq<Moment>): seq<string>
    requires |moments| == |names| && forall i :: 0 <= i < |names| ==> names[i] in files
  {
    if names == [] then []
    else
      var n := |names| - 1;
      DueNames(names[..n], files, topics, moments[..n])
      + (if FateOf(files[names[n]].content, topics, moments[n].checked) == Due then [names[n]] else [])
  }

  function FirstTen(s: seq<string>): seq<string> {
    if |s| <= MAX_PUBLISH_ATTEMPTS_PER_RUN then s else s[..MAX_PUBLISH_ATTEMPTS_PER_RUN]
  }

  function NamesOf(attempts: seq<Attempt>): (r: seq<string>)
    ensures |r| == |attempts| && forall i :: 0 <= i < |r| ==> r[i] == attempts[i].name
  {
    seq(|attempts|, i requires 0 <= i < |attempts| => attempts[i].name)
  }

  function Mtimes(files: map<string, File>): (r: map<string, int>)
    ensures r.Keys == files.Keys && forall n :: n in r ==> r[n] == files[n].mtime
  {
    map n | n in files :: files[n].mtime
  }

  // ---- histories -----------------------------------------------------------------------------------

  /** Recorded attempts are at least 6.1 s apart. */
  ghost predicate Paced(attempts: seq<Attempt>) {
    forall i :: 0 < i < |attempts| ==> attempts[i].at >= attempts[i - 1].at + MIN_PUBLISH_INTERVAL
  }

  lemma {:induction false} PacedSpan(attempts: seq<Attempt>, i: nat, j: nat)
    requires Paced(attempts) && i <= j < |attempts|
    ensures attempts[j].at - attempts[i].at >= MIN_PUBLISH_INTERVAL * (j - i)
    decreases j
  {
    if i < j {
      PacedSpan(attempts, i, j - 1);
    }
  }

  /** Any 60 seconds see at most ten recorded attempts, over any number of worker runs. */
  lemma AtMostTenPerMinute(attempts: seq<Attempt>, i: nat, j: nat)
    requires Paced(attempts) && i <= j < |attempts| && attempts[j].at - attempts[i].at <= 60 * MICROS
    ensures j - i + 1 <= 10
  {
    PacedSpan(attempts, i, j);
  }

  function Tries(attempts: seq<Attempt>, name: string): nat {
    if attempts == [] then 0
    else Tries(attempts[..|attempts| - 1], name) + (if attempts[|attempts| - 1].name == name then 1 else 0)
  }

  /** The attempts a killed worker left uncounted. */
  function Cuts(attempts: seq<Attempt>, name: string): nat {
    if attempts == [] then 0
    else
      var last := attempts[|attempts| - 1];
      Cuts(attempts[..|attempts| - 1], name) + (if last.name == name && last.outcome == Cut then 1 else 0)
  }

  function AllCuts(attempts: seq<Attempt>): nat {
    if attempts == [] then 0
    else AllCuts(attempts[..|attempts| - 1]) + (if attempts[|attempts| - 1].outcome == Cut then 1 else 0)
  }

  /** What the message itself can know of. */
  function Counted(attempts: seq<Attempt>, name: string): int {
    Tries(attempts, name) - Cuts(attempts, name)
  }

  lemma TriesStep(attempts: seq<Attempt>, a: Attempt, name: string)
    ensures Tries(attempts + [a], name) == Tries(attempts, name) + (if a.name == name then 1 else 0)
    ensures Cuts(attempts + [a], name)
         == Cuts(attempts, name) + (if a.name == name && a.outcome == Cut then 1 else 0)
    ensures AllCuts(attempts + [a]) == AllCuts(attempts) + (if a.outcome == Cut then 1 else 0)
  {
    assert (attempts + [a])[..|attempts|] == attempts;
  }

  lemma {:induction false} CutsAreAllCuts(attempts: seq<Attempt>, name: string)
    ensures Cuts(attempts, name) <= AllCuts(attempts) && Cuts(attempts, name) <= Tries(attempts, name)
  {
    if attempts != [] {
      CutsAreAllCuts(attempts[..|attempts| - 1], name);
    }
  }

  /** A queued message counts its attempts and has waited as long as they require. */
  predicate Tracked(m: Message, tries: int) {
    && 0 <= m.attempts == tries <= 7
    && m.expiresAt == m.createdAt + LIFETIME
    && m.nextAttemptAt >= m.createdAt + BackoffSum(tries)
  }

  lemma EighthTryIsExpired(m: Message, tries: int, now: int)
    requires Tracked(m, tries) && m.nextAttemptAt <= now < m.expiresAt
    ensures tries <= 6
  {
    SixFitTheLifetimeSevenDoNot();
  }

  lemma RetryStaysTracked(m: Message, tries: int, now: int, later: int)
    requires Tracked(m, tries) && m.nextAttemptAt <= now < m.expiresAt && now <= later
    ensures tries + 1 <= 7 && Tracked(Retried(m, later), tries + 1)
  {
    EighthTryIsExpired(m, tries, now);
  }

  /** Whenever it is marked, the retried message counts its tries. */
  ghost predicate RetryTracked(m: Message, tries: int, now: int) {
    m.attempts >= 0 && forall later :: now <= later ==> Tracked(Retried(m, later), tries)
  }

  lemma RetryStaysAfter(m: Message, before: seq<Attempt>, a: Attempt, now: int)
    requires Tracked(m, Counted(before, a.name)) && m.nextAttemptAt <= now < m.expiresAt && a.outcome != Cut
    ensures RetryTracked(m, Counted(before + [a], a.name), now)
  {
    TriesStep(before, a, a.name);
    forall later | now <= later
      ensures Tracked(Retried(m, later), Counted(before + [a], a.name))
    {
      RetryStaysTracked(m, Counted(before, a.name), now, later);
    }
  }

  ghost predicate QueueTracked(queue: map<string, File>, attempts: seq<Attempt>) {
    forall n :: n in queue && queue[n].content.Readable? ==> Tracked(queue[n].content.message, Counted(attempts, n))
  }

  ghost predicate TriesBounded(attempts: seq<Attempt>) {
    forall n :: Counted(attempts, n) <= 7
  }

  ghost predicate AttemptsKnown(attempts: seq<Attempt>, known: set<string>) {
    forall n :: n !in known ==> Tries(attempts, n) == 0
  }

  ghost predicate Histories(queue: map<string, File>, attempts: seq<Attempt>, known: set<string>) {
    QueueTracked(queue, attempts) && TriesBounded(attempts) && AttemptsKnown(attempts, known)
  }

  /** How the handling of one file can end. */
  datatype Ending = Stays | Fails | Discards | Delivers(at: int) | Garbles(at: int) | Retries(at: int, later: int) {
    predicate Publishes() {
      Delivers? || Garbles? || Retries?
    }
  }

  predicate EndingFits(ending: Ending, fate: Fate, mayPublish: bool) {
    match ending
    case Stays => fate == Keep || (fate == Due && !mayPublish)
    case Fails => fate == Quarantine || fate == Expire
    case Discards => fate == Discard
    case Delivers(_) => fate == Due && mayPublish
    case Garbles(_) => fate == Due && mayPublish
    case Retries(_, _) => fate == Due && mayPublish
  }

  /** The spool's contents and histories at one moment. */
  datatype Snapshot = Snapshot(queue: map<string, File>, failed: map<string, File>, delivered: set<string>,
                               discarded: set<string>, attempts: seq<Attempt>) {
    function Remove(name: string): Snapshot {
      this.(queue := queue - {name})
    }

    function Fail(name: string): Snapshot
      requires name in queue
    {
      Remove(name).(failed := failed[name := queue[name]])
    }
  }

  /** What each ending does to the spool; nothing else changes. */
  ghost predicate Ended(name: string, ending: Ending, before: Snapshot, after: Snapshot)
    requires name in before.queue
  {
    match ending
    case Stays => after == before
    case Fails => after == before.Fail(name)
    case Discards => after == before.Remove(name).(discarded := before.discarded + {name})
    case Delivers(at) =>
      after == before.Remove(name).(delivered := before.delivered + {name},
                                    attempts := before.attempts + [Attempt(name, at, Accepted)])
    case Garbles(at) => after == before.Fail(name).(attempts := before.attempts + [Attempt(name, at, Garbled)])
    case Retries(at, later) =>
      var tried := before.(attempts := before.attempts + [Attempt(name, at, Rejected)]);
      && before.queue[name].content.Readable? && before.queue[name].content.message.attempts >= 0
      && var m := before.queue[name].content.message;
         RetryKept(name, m, later, tried, after)
  }

  /** `mark_retry`: an expired message goes to failed/ as it is on disk, any other is rewritten. */
  ghost predicate RetryKept(name: string, m: Message, now: int, before: Snapshot, after: Snapshot)
    requires name in before.queue && m.attempts >= 0
  {
    if now >= m.expiresAt then after == before.Fail(name)
    else exists mtime :: after == before.(queue := before.queue[name := File(mtime, Readable(Retried(m, now)))])
  }

  // ---- one run ---------------------------------------------------------------------------------------

  /** Where a file is once the run that started in `before` has dealt with it at `moment`; `tried` are the
      run's attempts. A failed publish that is marked after the expiry moves the file as it is on disk. */
  ghost predicate Settled(name: string, topics: map<string, string>, moment: Moment,
                          before: Snapshot, tried: seq<Attempt>, after: Snapshot)
    requires name in before.queue
  {
    var file := before.queue[name];
    match FateOf(file.content, topics, moment.checked)
    case Keep => name in after.queue && after.queue[name] == file
    case Quarantine => name in after.failed && after.failed[name] == file
    case Expire => name in after.failed && after.failed[name] == file
    case Discard => name in after.discarded
    case Due =>
      && (name !in NamesOf(tried) ==> name in after.queue && after.queue[name] == file)
      && forall i :: 0 <= i < |tried| && tried[i].name == name ==>
           match tried[i].outcome
           case Accepted => name in after.delivered
           case Garbled => name in after.failed && after.failed[name] == file
           case Rejected =>
             if moment.later >= file.content.message.expiresAt then name in after.failed && after.failed[name] == file
             else
               name in after.queue
               && after.queue[name].content == Readable(Retried(file.content.message, moment.later))
           case Cut => name in after.queue && after.queue[name] == file
  }

  predicate Unchanged(name: string, before: Snapshot, after: Snapshot)
    requires name in before.queue
  {
    name in after.queue && after.queue[name] == before.queue[name]
  }

  predicate TriedAs(tried: seq<Attempt>, name: string, outcome: Outcome) {
    exists i :: 0 <= i < |tried| && tried[i].name == name && tried[i].outcome == outcome
  }

  /** Where a file is after the run, and exactly why: it stays while it waits, or when it is due and the run did not
      come to it; it is discarded when its user is gone; it fails when it is spent, or its publish garbled, or was
      refused too late; it is delivered when its publish was accepted, and rewritten when it was refused in time. */
  ghost predicate EndsUp(name: string, topics: map<string, string>, moment: Moment, before: Snapshot,
                         tried: seq<Attempt>, after: Snapshot)
    requires name in before.queue
  {
    var content := before.queue[name].content;
    var due := IsDue(content, topics, moment.checked);
    && (Unchanged(name, before, after) <==>
          IsWaiting(content, moment.checked) || (due && (name !in NamesOf(tried) || TriedAs(tried, name, Cut))))
    && (name in after.discarded <==> IsOrphan(content, topics, moment.checked))
    && (name in after.delivered <==> due && TriedAs(tried, name, Accepted))
    && (name in after.failed <==>
          || IsSpent(content, moment.checked) || (due && TriedAs(tried, name, Garbled))
          || (due && TriedAs(tried, name, Rejected) && content.message.expiresAt <= moment.later))
    && (name in after.failed ==> after.failed[name] == before.queue[name])
    && (name in after.queue && !Unchanged(name, before, after) ==>
          && due && TriedAs(tried, name, Rejected) && moment.later < content.message.expiresAt
          && after.queue[name].content == Readable(Retried(content.message, moment.later)))
  }

  ghost predicate Separate(s: Snapshot) {
    && s.queue.Keys !! s.failed.Keys && s.queue.Keys !! s.delivered && s.queue.Keys !! s.discarded
    && s.failed.Keys !! s.delivered && s.failed.Keys !! s.discarded && s.delivered !! s.discarded
  }

  lemma FateExactly(content: Content, topics: map<string, string>, now: int)
    ensures var fate := FateOf(content, topics, now);
      && (fate == Keep <==> IsWaiting(content, now)) && (fate in {Quarantine, Expire} <==> IsSpent(content, now))
      && (fate == Discard <==> IsOrphan(content, topics, now)) && (fate == Due <==> IsDue(content, topics, now))
  {}

  lemma TriedSomehow(tried: seq<Attempt>, name: string)
    ensures name in NamesOf(tried) <==>
      || TriedAs(tried, name, Accepted) || TriedAs(tried, name, Garbled) || TriedAs(tried, name, Rejected)
      || TriedAs(tried, name, Cut)
  {
    if name in NamesOf(tried) {
      var i :| 0 <= i < |tried| && NamesOf(tried)[i] == name;
      assert TriedAs(tried, name, tried[i].outcome);
    }
    forall i | 0 <= i < |tried| && tried[i].name == name
      ensures name in NamesOf(tried)
    {
      assert NamesOf(tried)[i] == name;
    }
  }

  lemma SettledEndsUp(name: string, topics: map<string, string>, moment: Moment, before: Snapshot,
                      tried: seq<Attempt>, after: Snapshot)
    requires name in before.queue && Settled(name, topics, moment, before, tried, after) && Separate(after)
    ensures EndsUp(name, topics, moment, before, tried, after)
  {
    FateExactly(before.queue[name].content, topics, moment.checked);
    TriedSomehow(tried, name);
  }

  lemma NamesAppend(tried: seq<Attempt>, a: Attempt)
    ensures NamesOf(tried + [a]) == NamesOf(tried) + [a.name]
  {}

  /** Handling another file leaves a settled file where it is. */
  lemma SettledStays(name: string, topics: map<string, string>, moment: Moment, before: Snapshot,
                     other: string, ending: Ending, tried: seq<Attempt>, s: Snapshot,
                     tried': seq<Attempt>, s': Snapshot)
    requires name in before.queue && Settled(name, topics, moment, before, tried, s)
    requires other in s.queue && other != name && Ended(other, ending, s, s')
    requires tried' == tried || exists a: Attempt :: a.name == other && tried' == tried + [a]
    ensures Settled(name, topics, moment, before, tried', s')
  {
    if tried' != tried {
      var a: Attempt :| a.name == other && tried' == tried + [a];
      NamesAppend(tried, a);
      assert name in NamesOf(tried') ==> name in NamesOf(tried);
      assert forall i :: 0 <= i < |tried'| && tried'[i].name == name ==> i < |tried| && tried[i] == tried'[i];
    }
  }

  /** What an ending adds to the run's attempts. */
  ghost predicate TriedStep(name: string, ending: Ending, moment: Moment, tried: seq<Attempt>, tried': seq<Attempt>) {
    match ending
    case Delivers(at) => tried' == tried + [Attempt(name, at, Accepted)]
    case Garbles(at) => tried' == tried + [Attempt(name, at, Garbled)]
    case Retries(at, later) => later == moment.later && tried' == tried + [Attempt(name, at, Rejected)]
    case _ => tried' == tried
  }

  /** The handled file itself is settled by its ending. */
  lemma SettlesNow(name: string, topics: map<string, string>, moment: Moment, before: Snapshot, mayPublish: bool,
                   ending: Ending, tried: seq<Attempt>, s: Snapshot, tried': seq<Attempt>, s': Snapshot)
    requires name in before.queue && name in s.queue && s.queue[name] == before.queue[name]
    requires Ended(name, ending, s, s')
    requires EndingFits(ending, FateOf(s.queue[name].content, topics, moment.checked), mayPublish)
    requires name !in NamesOf(tried) && TriedStep(name, ending, moment, tried, tried')
    ensures Settled(name, topics, moment, before, tried', s')
  {
    forall i | 0 <= i < |tried|
      ensures tried[i].name != name
    {
      assert NamesOf(tried)[i] == tried[i].name;
    }
    assert forall i :: 0 <= i < |tried'| && tried'[i].name == name ==> i == |tried|;
    if |tried'| > |tried| {
      assert NamesOf(tried')[|tried|] == name;
    }
  }

  /** Files the run counts as processed: all but those it leaves alone. */
  function Handled(names: seq<string>, files: map<string, File>, topics: map<string, string>, moments: seq<Moment>): nat
    requires |moments| == |names| && forall i :: 0 <= i < |names| ==> names[i] in files
  {
    if names == [] then 0
    else
      var n := |names| - 1;
      var fate := FateOf(files[names[n]].content, topics, moments[n].checked);
      var spent := |DueNames(names[..n], files, topics, moments[..n])| >= MAX_PUBLISH_ATTEMPTS_PER_RUN;
      Handled(names[..n], files, topics, moments[..n])
      + (if fate == Keep || (fate == Due && spent) then 0 else 1)
  }

  /** A run's attempts so far, its count and its settled files agree with the names it has looked at. */
  ghost predicate Progress(names: seq<string>, topics: map<string, string>, moments: seq<Moment>,
                           before: Snapshot, tried: seq<Attempt>, after: Snapshot, processed: nat)
    requires |moments| <= |names| && forall j :: 0 <= j < |names| ==> names[j] in before.queue
  {
    && NamesOf(tried) == FirstTen(DueNames(names[..|moments|], before.queue, topics, moments))
    && processed == Handled(names[..|moments|], before.queue, topics, moments)
    && forall j :: 0 <= j < |moments| ==> Settled(names[j], topics, moments[j], before, tried, after)
  }

  lemma {:induction false} DueNamesAreNames(names: seq<string>, files: map<string, File>, topics: map<string, string>,
                                            moments: seq<Moment>)
    requires |moments| == |names| && forall i :: 0 <= i < |names| ==> names[i] in files
    ensures forall n :: n in DueNames(names, files, topics, moments) ==> n in names
  {
    if names != [] {
      DueNamesAreNames(names[..|names| - 1], files, topics, moments[..|names| - 1]);
    }
  }

  lemma DueStep(names: seq<string>, topics: map<string, string>, moments: seq<Moment>, moment: Moment,
                files: map<string, File>)
    requires |moments| < |names| && forall j :: 0 <= j < |names| ==> names[j] in files
    ensures var i := |moments|;
            var due := DueNames(names[..i], files, topics, moments);
            var fate := FateOf(files[names[i]].content, topics, moment.checked);
            && DueNames(names[..i + 1], files, topics, moments + [moment])
               == due + (if fate == Due then [names[i]] else [])
            && Handled(names[..i + 1], files, topics, moments + [moment])
               == Handled(names[..i], files, topics, moments)
                  + (if fate == Keep || (fate == Due && |due| >= MAX_PUBLISH_ATTEMPTS_PER_RUN) then 0 else 1)
  {
    assert names[..|moments| + 1][..|moments|] == names[..|moments|];
    assert (moments + [moment])[..|moments|] == moments;
  }

  lemma ProgressStep(names: seq<string>, topics: map<string, string>, moments: seq<Moment>, moment: Moment,
                     before: Snapshot, ending: Ending, tried: seq<Attempt>, s: Snapshot, processed: nat,
                     tried': seq<Attempt>, s': Snapshot)
    requires |moments| < |names| && (forall j :: 0 <= j < |names| ==> names[j] in before.queue)
    requires forall j, k :: 0 <= j < k < |names| ==> names[j] != names[k]
    requires Progress(names, topics, moments, before, tried, s, processed)
    requires var name := names[|moments|];
      && name in s.queue && s.queue[name] == before.queue[name]
      && Ended(name, ending, s, s') && TriedStep(name, ending, moment, tried, tried')
      && EndingFits(ending, FateOf(s.queue[name].content, topics, moment.checked),
                    |tried| < MAX_PUBLISH_ATTEMPTS_PER_RUN)
    ensures Progress(names, topics, moments + [moment], before, tried', s', processed + if ending.Stays? then 0 else 1)
  {
    SettledAfter(names, topics, moments, moment, before, ending, tried, s, tried', s');
    CountStep(names, topics, moments, moment, before, ending, tried, tried');
    HandledStep(names, topics, moments, moment, before.queue, ending, |tried|);
  }

  lemma SettledAfter(names: seq<string>, topics: map<string, string>, moments: seq<Moment>, moment: Moment,
                     before: Snapshot, ending: Ending, tried: seq<Attempt>, s: Snapshot,
                     tried': seq<Attempt>, s': Snapshot)
    requires |moments| < |names| && (forall j :: 0 <= j < |names| ==> names[j] in before.queue)
    requires forall j, k :: 0 <= j < k < |names| ==> names[j] != names[k]
    requires NamesOf(tried) == FirstTen(DueNames(names[..|moments|], before.queue, topics, moments))
    requires forall j :: 0 <= j < |moments| ==> Settled(names[j], topics, moments[j], before, tried, s)
    requires var name := names[|moments|];
      && name in s.queue && s.queue[name] == before.queue[name]
      && Ended(name, ending, s, s') && TriedStep(name, ending, moment, tried, tried')
      && EndingFits(ending, FateOf(s.queue[name].content, topics, moment.checked),
                    |tried| < MAX_PUBLISH_ATTEMPTS_PER_RUN)
    ensures forall j :: 0 <= j < |moments + [moment]| ==>
      Settled(names[j], topics, (moments + [moment])[j], before, tried', s')
  {
    var name := names[|moments|];
    NotTriedYet(names, topics, moments, before.queue, tried);
    SettlesNow(name, topics, moment, before, |tried| < MAX_PUBLISH_ATTEMPTS_PER_RUN, ending, tried, s, tried', s');
    EarlierStay(names, topics, moments, before, name, ending, tried, s, tried', s');
    SettledMore(names, topics, moments, moment, before, tried', s');
  }

  lemma NotTriedYet(names: seq<string>, topics: map<string, string>, moments: seq<Moment>, files: map<string, File>,
                    tried: seq<Attempt>)
    requires |moments| < |names| && forall j :: 0 <= j < |names| ==> names[j] in files
    requires forall j, k :: 0 <= j < k < |names| ==> names[j] != names[k]
    requires NamesOf(tried) == FirstTen(DueNames(names[..|moments|], files, topics, moments))
    ensures names[|moments|] !in NamesOf(tried)
  {
    var i := |moments|;
    DueNamesAreNames(names[..i], files, topics, moments);
    assert names[i] !in names[..i];
    assert names[i] !in DueNames(names[..i], files, topics, moments);
  }

  lemma SettledMore(names: seq<string>, topics: map<string, string>, moments: seq<Moment>, moment: Moment,
                    before: Snapshot, tried: seq<Attempt>, s: Snapshot)
    requires |moments| < |names| && forall j :: 0 <= j < |names| ==> names[j] in before.queue
    requires forall j :: 0 <= j < |moments| ==> Settled(names[j], topics, moments[j], before, tried, s)
    requires Settled(names[|moments|], topics, moment, before, tried, s)
    ensures forall j :: 0 <= j < |moments + [moment]| ==>
      Settled(names[j], topics, (moments + [moment])[j], before, tried, s)
  {}

  lemma HandledStep(names: seq<string>, topics: map<string, string>, moments: seq<Moment>, moment: Moment,
                    files: map<string, File>, ending: Ending, tries: nat)
    requires |moments| < |names| && forall j :: 0 <= j < |names| ==> names[j] in files
    requires tries == |FirstTen(DueNames(names[..|moments|], files, topics, moments))|
    requires EndingFits(ending, FateOf(files[names[|moments|]].content, topics, moment.checked),
                        tries < MAX_PUBLISH_ATTEMPTS_PER_RUN)
    ensures Handled(names[..|moments| + 1], files, topics, moments + [moment])
         == Handled(names[..|moments|], files, topics, moments) + if ending.Stays? then 0 else 1
  {
    DueStep(names, topics, moments, moment, files);
  }

  lemma EarlierStay(names: seq<string>, topics: map<string, string>, moments: seq<Moment>, before: Snapshot,
                    name: string, ending: Ending, tried: seq<Attempt>, s: Snapshot, tried': seq<Attempt>, s': Snapshot)
    requires |moments| <= |names| && forall j :: 0 <= j < |moments| ==> names[j] in before.queue && names[j] != name
    requires forall j :: 0 <= j < |moments| ==> Settled(names[j], topics, moments[j], before, tried, s)
    requires name in s.queue && Ended(name, ending, s, s')
    requires tried' == tried || exists a: Attempt :: a.name == name && tried' == tried + [a]
    ensures forall j :: 0 <= j < |moments| ==> Settled(names[j], topics, moments[j], before, tried', s')
  {
    forall j | 0 <= j < |moments|
      ensures Settled(names[j], topics, moments[j], before, tried', s')
    {
      SettledStays(names[j], topics, moments[j], before, name, ending, tried, s, tried', s');
    }
  }

  lemma CountStep(names: seq<string>, topics: map<string, string>, moments: seq<Moment>, moment: Moment,
                  before: Snapshot,
                  ending: Ending, tried: seq<Attempt>, tried': seq<Attempt>)
    requires |moments| < |names| && (forall j :: 0 <= j < |names| ==> names[j] in before.queue)
    requires NamesOf(tried) == FirstTen(DueNames(names[..|moments|], before.queue, topics, moments))
    requires var name := names[|moments|];
      && EndingFits(ending, FateOf(before.queue[name].content, topics, moment.checked),
                    |tried| < MAX_PUBLISH_ATTEMPTS_PER_RUN)
      && TriedStep(name, ending, moment, tried, tried')
    ensures NamesOf(tried') == FirstTen(DueNames(names[..|moments| + 1], before.queue, topics, moments + [moment]))
  {
    DueStep(names, topics, moments, moment, before.queue);
    if |tried'| > |tried| {
      NamesAppend(tried, tried'[|tried|]);
    }
  }

  // ---- which messages a run publishes ------------------------------------------------------------------

  ghost predicate Increasing(at: seq<nat>) {
    forall j, k :: 0 <= j < k < |at| ==> at[j] < at[k]
  }

  ghost predicate DueAt(names: seq<string>, files: map<string, File>, topics: map<string, string>,
                        moments: seq<Moment>, i: nat)
    requires |moments| == |names|
  {
    i < |names| && names[i] in files && IsDue(files[names[i]].content, topics, moments[i].checked)
  }

  /** The names whose flag is set, in order. */
  function Flagged(names: seq<string>, flags: seq<bool>): seq<string>
    requires |flags| == |names|
  {
    if names == [] then []
    else
      var n := |names| - 1;
      Flagged(names[..n], flags[..n]) + if flags[n] then [names[n]] else []
  }

  /** `at` holds the positions of the set flags, in order. */
  ghost predicate Positions(flags: seq<bool>, at: seq<nat>) {
    Increasing(at) && forall i: nat :: i in at <==> i < |flags| && flags[i]
  }

  lemma OnePositionMore(flags: seq<bool>, at: seq<nat>, flag: bool)
    requires Positions(flags, at)
    ensures Positions(flags + [flag], if flag then at + [|flags|] else at)
  {
    forall j | 0 <= j < |at|
      ensures at[j] < |flags|
    {
      assert at[j] in at;
    }
    var more := if flag then at + [|flags|] else at;
    forall i: nat
      ensures i in more <==> i < |flags + [flag]| && (flags + [flag])[i]
    {
      assert i in more <==> i in at || (flag && i == |flags|);
    }
  }

  ghost predicate Picked(names: seq<string>, at: seq<nat>, picked: seq<string>) {
    |at| == |picked| && forall j :: 0 <= j < |at| ==> at[j] < |names| && names[at[j]] == picked[j]
  }

  lemma OneFlagMore(names: seq<string>, flags: seq<bool>)
    requires |flags| == |names| > 0
    ensures var n := |names| - 1;
      Flagged(names, flags) == if flags[n] then Flagged(names[..n], flags[..n]) + [names[n]]
                               else Flagged(names[..n], flags[..n])
  {}

  lemma PickedOneMore(names: seq<string>, n: nat, at: seq<nat>, picked: seq<string>)
    requires n < |names| && Picked(names[..n], at, picked)
    ensures Picked(names, at, picked) && Picked(names, at + [n], picked + [names[n]])
  {}

  lemma {:induction false} FlaggedPositions(names: seq<string>, flags: seq<bool>) returns (at: seq<nat>)
    requires |flags| == |names|
    ensures Picked(names, at, Flagged(names, flags)) && Positions(flags, at)
  {
    at := [];
    if names != [] {
      var n := |names| - 1;
      var front := FlaggedPositions(names[..n], flags[..n]);
      OneFlagMore(names, flags);
      OnePositionMore(flags[..n], front, flags[n]);
      PickedOneMore(names, n, front, Flagged(names[..n], flags[..n]));
      assert flags[..n] + [flags[n]] == flags;
      at := if flags[n] then front + [n] else front;
    }
  }

  function DueFlags(names: seq<string>, files: map<string, File>, topics: map<string, string>, moments: seq<Moment>)
    : (flags: seq<bool>)
    requires |moments| == |names| && forall i :: 0 <= i < |names| ==> names[i] in files
    ensures |flags| == |names|
  {
    seq(|names|, i requires 0 <= i < |names| => FateOf(files[names[i]].content, topics, moments[i].checked) == Due)
  }

  lemma {:induction false} DueAreFlagged(names: seq<string>, files: map<string, File>, topics: map<string, string>,
                                         moments: seq<Moment>)
    requires |moments| == |names| && forall i :: 0 <= i < |names| ==> names[i] in files
    ensures DueNames(names, files, topics, moments) == Flagged(names, DueFlags(names, files, topics, moments))
  {
    if names != [] {
      var n := |names| - 1;
      DueAreFlagged(names[..n], files, topics, moments[..n]);
      assert DueFlags(names, files, topics, moments)[..n] == DueFlags(names[..n], files, topics, moments[..n]);
    }
  }

  lemma DueFateIsDue(content: Content, topics: map<string, string>, now: int)
    ensures FateOf(content, topics, now) == Due <==> IsDue(content, topics, now)
  {}

  /** The positions of the due files, in order. */
  lemma DuePositions(names: seq<string>, files: map<string, File>, topics: map<string, string>, moments: seq<Moment>)
    returns (at: seq<nat>)
    requires |moments| == |names| && forall i :: 0 <= i < |names| ==> names[i] in files
    ensures var due := DueNames(names, files, topics, moments);
      |at| == |due| && forall j :: 0 <= j < |at| ==> at[j] < |names| && names[at[j]] == due[j]
    ensures Increasing(at) && forall i: nat :: i in at <==> DueAt(names, files, topics, moments, i)
  {
    DueAreFlagged(names, files, topics, moments);
    at := FlaggedPositions(names, DueFlags(names, files, topics, moments));
    assert Picked(names, at, DueNames(names, files, topics, moments));
    forall i: nat | i < |names|
      ensures DueFlags(names, files, topics, moments)[i] <==> DueAt(names, files, topics, moments, i)
    {
      DueFateIsDue(files[names[i]].content, topics, moments[i].checked);
    }
  }

  /** A run publishes the first ten due messages in queue order and no others: each attempt belongs to a due
      message, in increasing positions, and a due message is passed over only after ten earlier ones. */
  lemma PublishesAreFirstDue(names: seq<string>, topics: map<string, string>, moments: seq<Moment>, before: Snapshot,
                             tried: seq<Attempt>, after: Snapshot, processed: nat)
    returns (at: seq<nat>)
    requires |moments| == |names| && forall j :: 0 <= j < |names| ==> names[j] in before.queue
    requires Progress(names, topics, moments, before, tried, after, processed)
    ensures |at| == |tried| <= MAX_PUBLISH_ATTEMPTS_PER_RUN && Increasing(at)
    ensures forall j :: 0 <= j < |at| ==>
      DueAt(names, before.queue, topics, moments, at[j]) && names[at[j]] == tried[j].name
    ensures forall i: nat :: DueAt(names, before.queue, topics, moments, i) && i !in at ==>
      |at| == MAX_PUBLISH_ATTEMPTS_PER_RUN && forall j :: 0 <= j < |at| ==> at[j] < i
  {
    assert names[..|names|] == names;
    var due := DuePositions(names, before.queue, topics, moments);
    at := if |due| <= MAX_PUBLISH_ATTEMPTS_PER_RUN then due else due[..MAX_PUBLISH_ATTEMPTS_PER_RUN];
    forall j | 0 <= j < |at|
      ensures DueAt(names, before.queue, topics, moments, at[j]) && names[at[j]] == tried[j].name
    {
      assert at[j] == due[j] && due[j] in due;
      assert NamesOf(tried)[j] == tried[j].name;
    }
    forall i: nat | DueAt(names, before.queue, topics, moments, i) && i !in at
      ensures |at| == MAX_PUBLISH_ATTEMPTS_PER_RUN && forall j :: 0 <= j < |at| ==> at[j] < i
    {
      assert forall j :: 0 <= j < |at| ==> at[j] == due[j] && due[j] in at;
      var k :| 0 <= k < |due| && due[k] == i;
      assert k >= |at|;
    }
  }

  // ---- what is queued ------------------------------------------------------------------------------------

  /** The message that tells this user of this event: to the user's topic, due at once, with the best fitting table of
      the event's fields; the worker will accept it exactly when clock, region and topic are in order. */
  ghost predicate ReportOf(cs: Charset, registry: Registry, event: Event, name: string, now: int, m: Message)
    requires |event.fields| == FIELDS && event.username in registry.topics
  {
    && m.id == name && m.createdAt == m.nextAttemptAt == now && m.expiresAt == now + LIFETIME && m.attempts == 0
    && m.username == event.username && m.region == registry.region && m.topicId == registry.topics[event.username]
    && m.jobId == event.jobId && m.mailType == event.mailType
    && |LABELS| == FIELDS && Tells(cs, event, m.title, m.body)
    && (Acceptable(m) <==> now >= 0 && ValidRegion(registry.region) && ValidTopic(m.topicId))
  }

  method MakeReport(cs: Charset, registry: Registry, event: Event, name: string, now: int) returns (m: Message)
    requires cs.Sane() && |event.fields| == FIELDS && event.username in registry.topics
    ensures ReportOf(cs, registry, event, name, now, m) && Tracked(m, 0)
  {
    var addressed := event.(region := registry.region, topicId := registry.topics[event.username]);
    m := ComposeMessage(cs, addressed, name, now);
    assert Tells(cs, event, m.title, m.body);
  }

  class Spool {
    var queue: map<string, File>   // *.json in the spool directory
    var failed: map<string, File>  // failed/
    var delivered: set<string>     // history: accepted by the service and unlinked
    var discarded: set<string>     // history: unlinked because the user is no longer registered
    var attempts: seq<Attempt>     // history: everything ever recorded
    var lastPublish: Option<int>   // .worker.lock
    var time: int

    ghost function Now(): Snapshot
      reads this
    {
      Snapshot(queue, failed, delivered, discarded, attempts)
    }

    function Known(): set<string>
      reads this
    {
      queue.Keys + failed.Keys + delivered + discarded
    }

    ghost predicate Partitioned()
      reads this
    {
      && queue.Keys !! failed.Keys && queue.Keys !! delivered && queue.Keys !! discarded
      && failed.Keys !! delivered && failed.Keys !! discarded && delivered !! discarded
    }

    /** The lock file holds the last recorded attempt, which is in the past; it is empty only where a killed
        worker had already waited for its slot. */
    ghost predicate RateKept()
      reads this`attempts, this`lastPublish, this`time
    {
      && Paced(attempts)
      && (attempts != [] ==>
            var last := attempts[|attempts| - 1].at;
            if lastPublish.Some? then lastPublish.value == last <= time else last + MIN_PUBLISH_INTERVAL <= time)
    }

    ghost predicate Valid()
      reads this
    {
      && Partitioned()
      && RateKept()
      && Histories(queue, attempts, Known())
    }

    /** Between an attempt at `name` and the update of its file. */
    ghost predicate Attempted(name: string)
      reads this
    {
      && Partitioned()
      && RateKept()
      && Histories(queue - {name}, attempts, Known())
      && name in queue
    }

    constructor (start: int, lock: Option<int>)
      ensures Valid() && queue == map[] && attempts == [] && lastPublish == lock
    {
      queue, failed, delivered, discarded := map[], map[], {}, {};
      attempts, lastPublish, time := [], lock, start;
    }

    /** `time.time()`: never goes back. */
    method Clock() returns (now: int)
      modifies this`time
      ensures now == time >= old(time)
    {
      var elapsed: int :| elapsed >= 0;
      time := time + elapsed;
      now := time;
    }

    /** The sleeper waits at least as long as asked. */
    method Sleep(duration: nat)
      modifies this`time
      ensures time >= old(time) + duration
    {
      var late: int :| late >= 0;
      time := time + duration + late;
    }

    method Seconds(fixedNow: Option<int>) returns (now: int)
      modifies this`time
      ensures time >= old(time)
      ensures now == if fixedNow.Some? then fixedNow.value else time / MICROS
    {
      if fixedNow.Some? {
        now := fixedNow.value;
      } else {
        var t := Clock();
        now := t / MICROS;
      }
    }

    method WaitForPublishSlot()
      modifies this`time
      ensures time >= old(time)
      ensures lastPublish.Some? && lastPublish.value <= old(time) ==> time >= lastPublish.value + MIN_PUBLISH_INTERVAL
    {
      var now := Clock();
      if lastPublish.None? {
        return;
      }
      var missing := MIN_PUBLISH_INTERVAL - (now - lastPublish.value);
      var delay := if missing < 0 then 0 else missing;
      if delay > MIN_PUBLISH_INTERVAL {
        delay := MIN_PUBLISH_INTERVAL;
      }
      if delay > 0 {
        Sleep(delay);
      }
    }

    /** The OCI CLI call: takes time, and succeeds or not. */
    method Publish() returns (outcome: Outcome)
      modifies this`time
      ensures time >= old(time) && outcome != Cut
    {
      outcome :| outcome in {Accepted, Rejected, Garbled};
      var t := Clock();
    }

    /** `wait_for_publish_slot`, then the first half of `record_publish_attempt`: the lock file is emptied. */
    method TakeSlot() returns (at: int)
      requires RateKept()
      modifies this`time, this`lastPublish
      ensures RateKept() && at == time >= old(time) && lastPublish == None
    {
      WaitForPublishSlot();
      at := Clock();
      lastPublish := None;
    }

    /** One slot of the rate limit: wait, record the time, publish. */
    method TryPublish(name: string) returns (outcome: Outcome, at: int)
      requires RateKept()
      modifies this`time, this`lastPublish, this`attempts
      ensures attempts == old(attempts) + [Attempt(name, at, outcome)] && outcome != Cut
      ensures RateKept() && lastPublish == Some(at) && time >= old(time)
    {
      at := TakeSlot();
      lastPublish := Some(at);
      outcome := Publish();
      attempts := attempts + [Attempt(name, at, outcome)];
    }

    /** The body of the worker's loop for one file. `moment` says when it was checked and marked. */
    method Handle(name: string, topics: map<string, string>, fixedNow: Option<int>, mayPublish: bool)
      returns (ghost moment: Moment, ghost ending: Ending, handled: bool, published: bool)
      requires Valid() && name in queue
      modifies this
      ensures Valid()
      ensures time >= old(time) && Timely(fixedNow, old(time), moment, time)
      ensures EndingFits(ending, FateOf(old(queue)[name].content, topics, moment.checked), mayPublish)
      ensures handled == !ending.Stays? && published == ending.Publishes()
      ensures Ended(name, ending, old(Now()), Now())
      ensures ending.Retries? ==> ending.later == moment.later
    {
      var messageNow := Seconds(fixedNow);
      var fate := FateOf(queue[name].content, topics, messageNow);
      DueFateIsDue(queue[name].content, topics, messageNow);
      ending, handled, published := Follow(name, fate, fixedNow, messageNow, mayPublish);
      moment := Moment(messageNow, if ending.Retries? then ending.later else messageNow);
    }

    /** The branch the checks lead to. */
    method Follow(name: string, fate: Fate, fixedNow: Option<int>, now: int, mayPublish: bool)
      returns (ghost ending: Ending, handled: bool, published: bool)
      requires Valid() && name in queue
      requires fixedNow.Some? ==> now == fixedNow.value
      requires fixedNow.None? ==> now <= time / MICROS
      requires fate == Due ==>
        && queue[name].content.Readable?
        && queue[name].content.message.nextAttemptAt <= now < queue[name].content.message.expiresAt
      modifies this
      ensures Valid() && EndingFits(ending, fate, mayPublish)
      ensures handled == !ending.Stays? && published == ending.Publishes()
      ensures Ended(name, ending, old(Now()), Now()) && time >= old(time)
      ensures ending.Retries? ==>
        now <= ending.later && if fixedNow.Some? then ending.later == now else ending.later <= time / MICROS
    {
      handled, published := true, false;
      match fate {
        case Keep =>
          handled, ending := false, Stays;
        case Quarantine =>
          MoveToFailed(name);
          ending := Fails;
        case Expire =>
          MoveToFailed(name);
          ending := Fails;
        case Discard =>
          queue := queue - {name};
          discarded := discarded + {name};
          ending := Discards;
        case Due =>
          if !mayPublish {
            handled, ending := false, Stays;
          } else {
            published := true;
            ending := PublishDue(name, fixedNow, now);
          }
      }
    }

    method MoveToFailed(name: string)
      requires Valid() && name in queue
      modifies this`queue, this`failed
      ensures Valid()
      ensures queue == old(queue) - {name} && failed == old(failed)[name := old(queue)[name]]
    {
      var file := queue[name];
      queue := queue - {name};
      failed := failed[name := file];
      assert Known() == old(Known());
    }

    method PublishDue(name: string, fixedNow: Option<int>, now: int) returns (ghost ending: Ending)
      requires Valid() && name in queue && queue[name].content.Readable?
      requires var m := queue[name].content.message; m.nextAttemptAt <= now < m.expiresAt
      requires fixedNow.Some? ==> now == fixedNow.value
      requires fixedNow.None? ==> now <= time / MICROS
      modifies this
      ensures Valid()
      ensures ending.Publishes()
      ensures Ended(name, ending, old(Now()), Now()) && time >= old(time)
      ensures ending.Retries? ==>
        now <= ending.later && if fixedNow.Some? then ending.later == now else ending.later <= time / MICROS
    {
      ghost var s := Now();
      assert Tracked(queue[name].content.message, Counted(attempts, name));
      var outcome, at := TryPublish(name);
      AttemptCounted(queue, s.attempts, Attempt(name, at, outcome), Known(), now);
      RetryStaysAfter(queue[name].content.message, s.attempts, Attempt(name, at, outcome), now);
      ending := Conclude(name, fixedNow, now, outcome, at, s);
    }

    /** What becomes of the file after its attempt; `s` is the spool before it. */
    method Conclude(name: string, fixedNow: Option<int>, now: int, outcome: Outcome, at: int, ghost s: Snapshot)
      returns (ghost ending: Ending)
      requires Attempted(name) && queue[name].content.Readable? && outcome != Cut
      requires Now() == s.(attempts := s.attempts + [Attempt(name, at, outcome)])
      requires RetryTracked(queue[name].content.message, Counted(attempts, name), now)
      requires fixedNow.Some? ==> now == fixedNow.value
      requires fixedNow.None? ==> now <= time / MICROS
      modifies this
      ensures Valid() && ending.Publishes() && Ended(name, ending, s, Now()) && time >= old(time)
      ensures ending.Retries? ==>
        now <= ending.later && if fixedNow.Some? then ending.later == now else ending.later <= time / MICROS
    {
      if outcome == Accepted {
        Unlink(name);
        ending := Delivers(at);
      } else if outcome == Garbled {
        Refuse(name);
        ending := Garbles(at);
      } else {
        var later := Seconds(fixedNow);
        MarkRetry(name, later);
        ending := Retries(at, later);
      }
    }

    /** The failed decoding is a ValueError, and the file is quarantined although it may have been published. */
    method Refuse(name: string)
      requires Attempted(name)
      modifies this`queue, this`failed
      ensures Valid()
      ensures Now() == old(Now()).Fail(name)
    {
      var file := queue[name];
      queue := queue - {name};
      failed := failed[name := file];
      assert Known() == old(Known());
    }

    method Unlink(name: string)
      requires Attempted(name)
      modifies this`queue, this`delivered
      ensures Valid()
      ensures Now() == old(Now()).Remove(name).(delivered := old(delivered) + {name})
    {
      queue := queue - {name};
      delivered := delivered + {name};
      assert Known() == old(Known());
    }

    method MarkRetry(name: string, now: int)
      requires Attempted(name) && queue[name].content.Readable? && queue[name].content.message.attempts >= 0
      requires Tracked(Retried(queue[name].content.message, now), Counted(attempts, name))
      modifies this`queue, this`failed
      ensures Valid()
      ensures RetryKept(name, old(queue)[name].content.message, now, old(Now()), Now())
    {
      var file := queue[name];
      var m := file.content.message;
      if now >= m.expiresAt {
        queue := queue - {name};
        failed := failed[name := file];
      } else {
        ghost var s := Now();
        queue := queue[name := File(time, Readable(Retried(m, now)))];
        assert Now() == s.(queue := s.queue[name := File(time, Readable(Retried(m, now)))]);
      }
      assert Known() == old(Known());
    }

    /** `queue_message`; `name` comes from a fresh UUID. */
    method QueueMessage(cs: Charset, registry: Registry, event: Event, name: string, freeSpace: bool)
      returns (queued: bool)
      requires cs.Sane() && |event.fields| == FIELDS
      requires Valid() && name !in Known()
      modifies this`queue
      ensures Valid()
      ensures queued <==> registry.enabled && event.username in registry.topics && registry.topics[event.username] != ""
                          && |old(queue)| < MAX_QUEUED_MESSAGES && freeSpace
      ensures !queued ==> queue == old(queue)
      ensures queued ==>
        && name in queue && queue == old(queue)[name := queue[name]] && queue[name].content.Readable?
        && ReportOf(cs, registry, event, name, time / MICROS, queue[name].content.message)
    {
      queued := registry.enabled && event.username in registry.topics && registry.topics[event.username] != ""
                && |queue| < MAX_QUEUED_MESSAGES && freeSpace;
      if queued {
        var m := MakeReport(cs, registry, event, name, time / MICROS);
        Add(name, Readable(m));
      }
    }

    method Add(name: string, content: Content)
      requires Valid() && name !in Known()
      requires content.Readable? ==> Tracked(content.message, 0)
      modifies this`queue
      ensures Valid()
      ensures queue == old(queue)[name := File(time, content)]
    {
      CutsAreAllCuts(attempts, name);
      queue := queue[name := File(time, content)];
    }

    method Apply(cs: Charset, op: Operation)
      requires Valid() && cs.Sane()
      modifies this
      ensures Valid() && AllCuts(attempts) <= AllCuts(old(attempts)) + if op.Killed? then 1 else 0
    {
      if Possible(op, Known()) {
        match op {
          case Report(registry, event, name, freeSpace) =>
            var queued := QueueMessage(cs, registry, event, name, freeSpace);
          case Work(fixedNow, topics, busy) =>
            var processed, names, moments := ProcessQueue(fixedNow, topics, busy);
          case Killed(fixedNow, active, handled, stage) =>
            var names, moments := KilledRun(fixedNow, active, handled, stage);
          case Foreign(name, content) =>
            Add(name, content);
        }
      }
    }

    /** `process_queue`. `busy`: another worker holds the lock; `registry` None: it cannot be loaded.
        `names` is the order in which the files were taken, `moments`
        when. */
    method ProcessQueue(fixedNow: Option<int>, registry: Option<map<string, string>>, busy: bool)
      returns (r: Result<nat>, ghost names: seq<string>, ghost moments: seq<Moment>)
      requires Valid()
      modifies this
      ensures Valid() && Known() == old(Known()) && AllCuts(attempts) == AllCuts(old(attempts))
      ensures busy ==> r == Ok(0) && Now() == old(Now())
      ensures !busy && registry.None? ==> r.Err? && Now() == old(Now())
      ensures !busy && registry.Some? ==> r.Ok? && IsQueueOrder(Mtimes(old(queue)), names)
      ensures old(attempts) <= attempts && |attempts| <= |old(attempts)| + MAX_PUBLISH_ATTEMPTS_PER_RUN
      ensures !busy && registry.Some? ==> |moments| == |names| && AllTimely(fixedNow, old(time), moments, time)
      ensures !busy && registry.Some? ==>
        Progress(names, registry.value, moments, old(Now()), attempts[|old(attempts)|..], Now(), r.value)
      ensures !busy && registry.Some? ==>
        && AllEndUp(names, registry.value, moments, old(Now()), attempts[|old(attempts)|..], Now())
        && (forall j :: 0 <= j < |names| ==> names[j] in old(queue)) && r.value == Changed(names, old(Now()), Now())
    {
      names, moments := [], [];
      if busy {
        return Ok(0), [], [];
      }
      if registry.None? {
        return Err("notification registry is temporarily unavailable"), [], [];
      }
      var order := SortedNames(Mtimes(queue));
      names := order;
      var processed, publishAttempts;
      processed, publishAttempts, moments := Sweep(order, registry.value, fixedNow, |order|);
      RunEndsUp(order, registry.value, moments, old(Now()), Now(), processed);
      r := Ok(processed);
    }

    /** `process_queue` until the worker is killed: when it has dealt with `handled` files and begun the next. */
    method KilledRun(fixedNow: Option<int>, topics: map<string, string>, handled: nat, stage: Stage)
      returns (ghost names: seq<string>, ghost moments: seq<Moment>)
      requires Valid()
      modifies this
      ensures Valid() && Known() == old(Known()) && AllCuts(attempts) <= AllCuts(old(attempts)) + 1
      ensures IsQueueOrder(Mtimes(old(queue)), names) && PartlySettled(names, topics, moments, old(Now()), Now())
      ensures AllEndUp(names, topics, moments, old(Now()), attempts[|old(attempts)|..], Now())
    {
      var order := SortedNames(Mtimes(queue));
      names := order;
      var stop := if handled <= |order| then handled else |order|;
      var processed, publishAttempts;
      processed, publishAttempts, moments := Sweep(order, topics, fixedNow, stop);
      UnderwayIsPartly(order, topics, moments, old(Now()), Now(), publishAttempts, processed);
      if stop < |order| && publishAttempts < MAX_PUBLISH_ATTEMPTS_PER_RUN {
        ghost var swept := Now();
        Interrupted(order[stop], topics, fixedNow, stage);
        CutLeavesSettled(order, topics, moments, old(Now()), swept, Now());
      }
      PartEndsUp(order, topics, moments, old(Now()), Now());
    }

    /** The turn of one file, up to the kill. */
    method Interrupted(name: string, topics: map<string, string>, fixedNow: Option<int>, stage: Stage)
      requires Valid() && name in queue
      modifies this`time, this`lastPublish, this`attempts
      ensures Valid() && OneCut(name, old(Now()), Now())
    {
      var now := Seconds(fixedNow);
      if FateOf(queue[name].content, topics, now) != Due || stage == Checking {
        return;
      }
      var at := TakeSlot();
      if stage == Publishing {
        RecordOnly(name, at);
      }
    }

    method RecordOnly(name: string, at: int)
      requires Valid() && name in queue && lastPublish == None && at == time
      modifies this`lastPublish, this`attempts
      ensures Valid() && OneCut(name, old(Now()), Now())
    {
      CutIsUncounted(queue, attempts, Attempt(name, at, Cut), Known());
      lastPublish := Some(at);
      attempts := attempts + [Attempt(name, at, Cut)];
    }

    /** The worker's loop over the sorted names, up to `stop`. */
    method Sweep(names: seq<string>, topics: map<string, string>, fixedNow: Option<int>, stop: nat)
      returns (processed: nat, publishAttempts: nat, ghost moments: seq<Moment>)
      requires Valid() && IsQueueOrder(Mtimes(queue), names) && stop <= |names|
      modifies this
      ensures Valid() && Known() == old(Known()) && AllCuts(attempts) == AllCuts(old(attempts))
      ensures |moments| == stop && AllTimely(fixedNow, old(time), moments, time)
      ensures Underway(names, topics, moments, old(Now()), Now(), publishAttempts, processed)
    {
      ghost var start, known, begun := Now(), Known(), time;
      Started(names, start, topics);
      processed, publishAttempts, moments := 0, 0, [];
      for i := 0 to stop
        invariant Valid() && Known() == known && |moments| == i && AllCuts(attempts) == AllCuts(start.attempts)
        invariant AllTimely(fixedNow, begun, moments, time)
        invariant Underway(names, topics, moments, start, Now(), publishAttempts, processed)
      {
        processed, publishAttempts, moments :=
          Turn(names, i, topics, fixedNow, start, begun, moments, processed, publishAttempts);
      }
    }

    method Turn(names: seq<string>, i: nat, topics: map<string, string>, fixedNow: Option<int>,
                ghost start: Snapshot, ghost begun: int, ghost moments: seq<Moment>,
                processed: nat, publishAttempts: nat)
      returns (processed': nat, publishAttempts': nat, ghost moments': seq<Moment>)
      requires Valid() && i == |moments| < |names| && AllTimely(fixedNow, begun, moments, time)
      requires Underway(names, topics, moments, start, Now(), publishAttempts, processed)
      modifies this
      ensures Valid() && Known() == old(Known()) && AllCuts(attempts) == AllCuts(old(attempts))
      ensures |moments'| == i + 1 && AllTimely(fixedNow, begun, moments', time)
      ensures Underway(names, topics, moments', start, Now(), publishAttempts', processed')
    {
      ghost var s, looked := Now(), time;
      var moment, ending, handled, published :=
        Handle(names[i], topics, fixedNow, publishAttempts < MAX_PUBLISH_ATTEMPTS_PER_RUN);
      TimelyStep(fixedNow, begun, moments, looked, moment, time);
      UnderwayStep(names, topics, moments, moment, ending, start, s, Now(), publishAttempts, processed);
      KnownStays(names[i], ending, s, Now());
      CutsStay(names[i], ending, s, Now());
      moments' := moments + [moment];
      publishAttempts' := if published then publishAttempts + 1 else publishAttempts;
      processed' := if handled then processed + 1 else processed;
    }
  }

  // ---- the times of a run ------------------------------------------------------------------------------

  /** A fixed time is used throughout; otherwise the clock is read between the two points in time. */
  ghost predicate Timely(fixedNow: Option<int>, from: int, m: Moment, to: int) {
    if fixedNow.Some? then m == Moment(fixedNow.value, fixedNow.value)
    else from / MICROS <= m.checked <= m.later <= to / MICROS
  }

  ghost predicate AllTimely(fixedNow: Option<int>, from: int, moments: seq<Moment>, to: int) {
    && from <= to
    && (forall i :: 0 <= i < |moments| ==> Timely(fixedNow, from, moments[i], to))
    && (forall i, j :: 0 <= i < j < |moments| ==> moments[i].later <= moments[j].checked)
  }

  lemma TimelyStep(fixedNow: Option<int>, from: int, moments: seq<Moment>, between: int, m: Moment, to: int)
    requires AllTimely(fixedNow, from, moments, between) && between <= to && Timely(fixedNow, between, m, to)
    ensures AllTimely(fixedNow, from, moments + [m], to)
  {
    assert from / MICROS <= between / MICROS <= to / MICROS;
  }

  // ---- where the files end up ------------------------------------------------------------------------

  /** How many of these files are no longer as they were. */
  function Changed(names: seq<string>, before: Snapshot, after: Snapshot): nat
    requires forall j :: 0 <= j < |names| ==> names[j] in before.queue
  {
    if names == [] then 0
    else
      var n := |names| - 1;
      Changed(names[..n], before, after) + if Unchanged(names[n], before, after) then 0 else 1
  }

  ghost predicate Different(names: seq<string>) {
    forall j, k :: 0 <= j < k < |names| ==> names[j] != names[k]
  }

  lemma {:induction false} DueNamesDiffer(names: seq<string>, files: map<string, File>, topics: map<string, string>,
                                          moments: seq<Moment>)
    requires |moments| == |names| && (forall i :: 0 <= i < |names| ==> names[i] in files) && Different(names)
    ensures Different(DueNames(names, files, topics, moments))
  {
    if names != [] {
      var n := |names| - 1;
      DueNamesDiffer(names[..n], files, topics, moments[..n]);
      DueNamesAreNames(names[..n], files, topics, moments[..n]);
      var front := DueNames(names[..n], files, topics, moments[..n]);
      forall k | 0 <= k < |front|
        ensures front[k] != names[n]
      {
        assert front[k] in names[..n];
      }
    }
  }

  lemma {:induction false} DueNamesBegin(names: seq<string>, files: map<string, File>, topics: map<string, string>,
                                         moments: seq<Moment>, i: nat)
    requires |moments| == |names| && (forall j :: 0 <= j < |names| ==> names[j] in files) && i <= |names|
    ensures DueNames(names[..i], files, topics, moments[..i]) <= DueNames(names, files, topics, moments)
  {
    if i == |names| {
      assert names[..i] == names && moments[..i] == moments;
    } else {
      var n := |names| - 1;
      DueNamesBegin(names[..n], files, topics, moments[..n], i);
      assert names[..n][..i] == names[..i] && moments[..n][..i] == moments[..i];
      DueNamesGrow(names, files, topics, moments, DueNames(names[..n], files, topics, moments[..n]));
    }
  }

  lemma DueNamesGrow(names: seq<string>, files: map<string, File>, topics: map<string, string>, moments: seq<Moment>,
                     front: seq<string>)
    requires |moments| == |names| > 0 && forall i :: 0 <= i < |names| ==> names[i] in files
    requires front == DueNames(names[..|names| - 1], files, topics, moments[..|names| - 1])
    ensures front <= DueNames(names, files, topics, moments)
  {}

  /** A due file is among the first ten exactly when fewer than ten due ones come before it. */
  lemma FirstTenExactly(names: seq<string>, files: map<string, File>, topics: map<string, string>,
                        moments: seq<Moment>, i: nat)
    requires |moments| == |names| && (forall j :: 0 <= j < |names| ==> names[j] in files) && i < |names|
    requires forall j, k :: 0 <= j < k < |names| ==> names[j] != names[k]
    requires FateOf(files[names[i]].content, topics, moments[i].checked) == Due
    ensures names[i] in FirstTen(DueNames(names, files, topics, moments)) <==>
      |DueNames(names[..i], files, topics, moments[..i])| < MAX_PUBLISH_ATTEMPTS_PER_RUN
  {
    var due, earlier := DueNames(names, files, topics, moments), DueNames(names[..i], files, topics, moments[..i]);
    DueNamesBegin(names, files, topics, moments, i + 1);
    assert names[..i + 1][..i] == names[..i] && moments[..i + 1][..i] == moments[..i];
    assert earlier + [names[i]] <= due;
    assert due[|earlier|] == names[i];
    DueNamesDiffer(names, files, topics, moments);
  }

  lemma {:induction false} HandledIsChanged(names: seq<string>, topics: map<string, string>, moments: seq<Moment>,
                                            before: Snapshot, tried: seq<Attempt>, after: Snapshot, i: nat)
    requires |moments| == |names| && (forall j :: 0 <= j < |names| ==> names[j] in before.queue) && i <= |names|
    requires forall j, k :: 0 <= j < k < |names| ==> names[j] != names[k]
    requires NamesOf(tried) == FirstTen(DueNames(names, before.queue, topics, moments))
    requires forall j :: 0 <= j < |names| ==> EndsUp(names[j], topics, moments[j], before, tried, after)
    requires forall k :: 0 <= k < |tried| ==> tried[k].outcome != Cut
    ensures Handled(names[..i], before.queue, topics, moments[..i]) == Changed(names[..i], before, after)
  {
    if i > 0 {
      HandledIsChanged(names, topics, moments, before, tried, after, i - 1);
      LeftAlone(names, topics, moments, before, tried, after, i - 1);
      HandledNext(names, before.queue, topics, moments, i - 1);
      ChangedNext(names, before, after, i - 1);
    }
  }

  lemma HandledNext(names: seq<string>, files: map<string, File>, topics: map<string, string>, moments: seq<Moment>,
                    i: nat)
    requires |moments| == |names| && (forall j :: 0 <= j < |names| ==> names[j] in files) && i < |names|
    ensures var fate := FateOf(files[names[i]].content, topics, moments[i].checked);
            var spent := |DueNames(names[..i], files, topics, moments[..i])| >= MAX_PUBLISH_ATTEMPTS_PER_RUN;
      Handled(names[..i + 1], files, topics, moments[..i + 1])
      == Handled(names[..i], files, topics, moments[..i]) + if fate == Keep || (fate == Due && spent) then 0 else 1
  {
    assert names[..i + 1][..i] == names[..i] && moments[..i + 1][..i] == moments[..i];
  }

  lemma ChangedNext(names: seq<string>, before: Snapshot, after: Snapshot, i: nat)
    requires (forall j :: 0 <= j < |names| ==> names[j] in before.queue) && i < |names|
    ensures Changed(names[..i + 1], before, after)
         == Changed(names[..i], before, after) + if Unchanged(names[i], before, after) then 0 else 1
  {
    assert names[..i + 1][..i] == names[..i];
  }

  /** A file is left alone when it waits, or when ten due ones came before it. */
  lemma LeftAlone(names: seq<string>, topics: map<string, string>, moments: seq<Moment>, before: Snapshot,
                  tried: seq<Attempt>, after: Snapshot, i: nat)
    requires |moments| == |names| && (forall j :: 0 <= j < |names| ==> names[j] in before.queue) && i < |names|
    requires forall j, k :: 0 <= j < k < |names| ==> names[j] != names[k]
    requires NamesOf(tried) == FirstTen(DueNames(names, before.queue, topics, moments))
    requires EndsUp(names[i], topics, moments[i], before, tried, after)
    requires forall k :: 0 <= k < |tried| ==> tried[k].outcome != Cut
    ensures var fate := FateOf(before.queue[names[i]].content, topics, moments[i].checked);
            var spent := |DueNames(names[..i], before.queue, topics, moments[..i])| >= MAX_PUBLISH_ATTEMPTS_PER_RUN;
      Unchanged(names[i], before, after) <==> fate == Keep || (fate == Due && spent)
  {
    FateExactly(before.queue[names[i]].content, topics, moments[i].checked);
    if FateOf(before.queue[names[i]].content, topics, moments[i].checked) == Due {
      FirstTenExactly(names, before.queue, topics, moments, i);
    }
  }

  lemma {:induction false} NoCuts(attempts: seq<Attempt>, tried: seq<Attempt>)
    requires AllCuts(attempts + tried) == AllCuts(attempts)
    ensures forall k :: 0 <= k < |tried| ==> tried[k].outcome != Cut
  {
    if tried != [] {
      var n := |tried| - 1;
      assert (attempts + tried)[..|attempts| + n] == attempts + tried[..n];
      CutsGrow(attempts, tried[..n]);
      NoCuts(attempts, tried[..n]);
    }
  }

  lemma {:induction false} CutsGrow(attempts: seq<Attempt>, tried: seq<Attempt>)
    ensures AllCuts(attempts) <= AllCuts(attempts + tried)
  {
    if tried == [] {
      assert attempts + tried == attempts;
    } else {
      var n := |tried| - 1;
      assert (attempts + tried)[..|attempts| + n] == attempts + tried[..n];
      CutsGrow(attempts, tried[..n]);
    }
  }

  /** Every file of the run where it should be, and the run's count that of the files it changed. */
  ghost predicate AllEndUp(names: seq<string>, topics: map<string, string>, moments: seq<Moment>, before: Snapshot,
                           tried: seq<Attempt>, after: Snapshot) {
    && |moments| <= |names|
    && forall j :: 0 <= j < |moments| ==>
         names[j] in before.queue && EndsUp(names[j], topics, moments[j], before, tried, after)
  }

  lemma RunEndsUp(names: seq<string>, topics: map<string, string>, moments: seq<Moment>, before: Snapshot,
                  after: Snapshot, processed: nat)
    requires |moments| == |names| && (forall j :: 0 <= j < |names| ==> names[j] in before.queue)
    requires forall j, k :: 0 <= j < k < |names| ==> names[j] != names[k]
    requires before.attempts <= after.attempts && AllCuts(after.attempts) == AllCuts(before.attempts)
    requires Progress(names, topics, moments, before, after.attempts[|before.attempts|..], after, processed)
    requires Separate(after)
    ensures AllEndUp(names, topics, moments, before, after.attempts[|before.attempts|..], after)
    ensures processed == Changed(names, before, after)
  {
    var tried := after.attempts[|before.attempts|..];
    assert before.attempts + tried == after.attempts;
    NoCuts(before.attempts, tried);
    assert names[..|names|] == names && moments[..|moments|] == moments;
    forall j | 0 <= j < |names|
      ensures EndsUp(names[j], topics, moments[j], before, tried, after)
    {
      SettledEndsUp(names[j], topics, moments[j], before, tried, after);
    }
    HandledIsChanged(names, topics, moments, before, tried, after, |names|);
  }

  // ---- killed workers ------------------------------------------------------------------------------

  /** How far the last file got: it was looked at, its slot was waited for and the lock file emptied, or the
      attempt was recorded, and perhaps published. */
  datatype Stage = Checking | Recording | Publishing

  lemma CutIsUncounted(queue: map<string, File>, before: seq<Attempt>, a: Attempt, known: set<string>)
    requires Histories(queue, before, known) && a.name in known && a.outcome == Cut
    ensures Histories(queue, before + [a], known)
  {
    forall n
      ensures Counted(before + [a], n) == Counted(before, n)
      ensures n != a.name ==> Tries(before + [a], n) == Tries(before, n)
    {
      TriesStep(before, a, n);
    }
  }

  /** Nothing changes but, perhaps, one more attempt, recorded and not counted. */
  ghost predicate OneCut(name: string, s: Snapshot, s': Snapshot) {
    s' == s || exists at :: s' == s.(attempts := s.attempts + [Attempt(name, at, Cut)])
  }

  /** What the run dealt with is settled, the rest of the queue is as it was, and it tried ten at most. */
  ghost predicate PartlySettled(names: seq<string>, topics: map<string, string>, moments: seq<Moment>,
                                start: Snapshot, s: Snapshot) {
    && |moments| <= |names| && start.attempts <= s.attempts
    && |s.attempts| <= |start.attempts| + MAX_PUBLISH_ATTEMPTS_PER_RUN
    && (forall j :: |moments| <= j < |names| ==>
          names[j] in start.queue && names[j] in s.queue && s.queue[names[j]] == start.queue[names[j]])
    && forall j :: 0 <= j < |moments| ==>
         && names[j] in start.queue
         && Settled(names[j], topics, moments[j], start, s.attempts[|start.attempts|..], s)
  }

  lemma UnderwayIsPartly(names: seq<string>, topics: map<string, string>, moments: seq<Moment>, start: Snapshot,
                         s: Snapshot, publishAttempts: nat, processed: nat)
    requires Underway(names, topics, moments, start, s, publishAttempts, processed)
    ensures PartlySettled(names, topics, moments, start, s)
  {}

  lemma PartEndsUp(names: seq<string>, topics: map<string, string>, moments: seq<Moment>, before: Snapshot,
                   after: Snapshot)
    requires PartlySettled(names, topics, moments, before, after) && Separate(after)
    ensures AllEndUp(names, topics, moments, before, after.attempts[|before.attempts|..], after)
  {
    forall j | 0 <= j < |moments|
      ensures EndsUp(names[j], topics, moments[j], before, after.attempts[|before.attempts|..], after)
    {
      SettledEndsUp(names[j], topics, moments[j], before, after.attempts[|before.attempts|..], after);
    }
  }

  /** The cut is at a file that comes after those dealt with. */
  lemma CutLeavesSettled(names: seq<string>, topics: map<string, string>, moments: seq<Moment>, start: Snapshot,
                         s: Snapshot, s': Snapshot)
    requires PartlySettled(names, topics, moments, start, s) && |moments| < |names|
    requires |s.attempts| < |start.attempts| + MAX_PUBLISH_ATTEMPTS_PER_RUN
    requires forall j, k :: 0 <= j < k < |names| ==> names[j] != names[k]
    requires OneCut(names[|moments|], s, s')
    ensures PartlySettled(names, topics, moments, start, s') && AllCuts(s'.attempts) <= AllCuts(s.attempts) + 1
  {
    if s' != s {
      var at :| s' == s.(attempts := s.attempts + [Attempt(names[|moments|], at, Cut)]);
      var a := Attempt(names[|moments|], at, Cut);
      TriesStep(s.attempts, a, a.name);
      var tried := s.attempts[|start.attempts|..];
      assert s'.attempts[|start.attempts|..] == tried + [a];
      forall j | 0 <= j < |moments|
        ensures Settled(names[j], topics, moments[j], start, tried + [a], s')
      {
        OneElseTried(names[j], topics, moments[j], start, tried, a, s, s');
      }
    }
  }

  lemma OneElseTried(name: string, topics: map<string, string>, moment: Moment, before: Snapshot,
                     tried: seq<Attempt>, a: Attempt, s: Snapshot, s': Snapshot)
    requires name in before.queue && Settled(name, topics, moment, before, tried, s) && a.name != name
    requires s' == s.(attempts := s'.attempts)
    ensures Settled(name, topics, moment, before, tried + [a], s')
  {
    NamesAppend(tried, a);
    assert name in NamesOf(tried + [a]) ==> name in NamesOf(tried);
    forall i | 0 <= i < |tried + [a]| && (tried + [a])[i].name == name
      ensures i < |tried| && tried[i] == (tried + [a])[i]
    {}
  }

  // ---- any life of a spool ------------------------------------------------------------------------

  /** What can happen to a spool: Slurm reports an event, a worker runs, a worker is killed after some files, or
      a file that is no notification appears. */
  datatype Operation =
    | Report(registry: Registry, event: Event, name: string, freeSpace: bool)
    | Work(fixedNow: Option<int>, topics: Option<map<string, string>>, busy: bool)
    | Killed(fixedNow: Option<int>, active: map<string, string>, handled: nat, stage: Stage)
    | Foreign(name: string, content: Content)

  predicate Possible(op: Operation, known: set<string>) {
    match op
    case Report(_, event, name, _) => |event.fields| == FIELDS && name !in known
    case Work(_, _, _) => true
    case Killed(_, _, _, _) => true
    case Foreign(name, content) => !content.Readable? && name !in known
  }

  function Kills(operations: seq<Operation>): nat {
    if operations == [] then 0
    else Kills(operations[..|operations| - 1]) + (if operations[|operations| - 1].Killed? then 1 else 0)
  }

  /** Whatever happens, in whatever order: no message is ever attempted more than seven times, but for one more
      for each worker that was killed, and no 60 seconds see more than ten recorded attempts. */
  method AnyLife(cs: Charset, start: int, operations: seq<Operation>) returns (spool: Spool)
    requires cs.Sane()
    ensures fresh(spool) && spool.Valid()
    ensures forall n :: Tries(spool.attempts, n) <= 7 + Cuts(spool.attempts, n)
    ensures forall n :: Cuts(spool.attempts, n) <= AllCuts(spool.attempts) <= Kills(operations)
    ensures forall i, j :: 0 <= i <= j < |spool.attempts| ==>
              (spool.attempts[j].at - spool.attempts[i].at <= 60 * MICROS ==> j - i + 1 <= 10)
  {
    spool := new Spool(start, None);
    for k := 0 to |operations|
      invariant fresh(spool) && spool.Valid() && AllCuts(spool.attempts) <= Kills(operations[..k])
    {
      assert operations[..k + 1][..k] == operations[..k];
      spool.Apply(cs, operations[k]);
    }
    assert operations[..|operations|] == operations;
    forall n
      ensures Counted(spool.attempts, n) <= 7 && Cuts(spool.attempts, n) <= AllCuts(spool.attempts)
    {
      CutsAreAllCuts(spool.attempts, n);
    }
    forall i, j | 0 <= i <= j < |spool.attempts| && spool.attempts[j].at - spool.attempts[i].at <= 60 * MICROS
      ensures j - i + 1 <= 10
    {
      AtMostTenPerMinute(spool.attempts, i, j);
    }
  }

  lemma CutsStay(name: string, ending: Ending, s: Snapshot, s': Snapshot)
    requires name in s.queue && Ended(name, ending, s, s')
    ensures AllCuts(s'.attempts) == AllCuts(s.attempts)
  {
    if s'.attempts != s.attempts {
      TriesStep(s.attempts, s'.attempts[|s.attempts|], name);
    }
  }

  lemma KnownStays(name: string, ending: Ending, s: Snapshot, s': Snapshot)
    requires name in s.queue && Ended(name, ending, s, s')
    ensures s'.queue.Keys + s'.failed.Keys + s'.delivered + s'.discarded
         == s.queue.Keys + s.failed.Keys + s.delivered + s.discarded
  {}

  /** The worker's loop after the files looked at so far. */
  ghost predicate Underway(names: seq<string>, topics: map<string, string>, moments: seq<Moment>,
                           start: Snapshot, s: Snapshot, publishAttempts: nat, processed: nat) {
    && |moments| <= |names|
    && (forall j :: 0 <= j < |names| ==> names[j] in start.queue)
    && (forall j, k :: 0 <= j < k < |names| ==> names[j] != names[k])
    && start.attempts <= s.attempts
    && publishAttempts == |s.attempts| - |start.attempts| <= MAX_PUBLISH_ATTEMPTS_PER_RUN
    && (forall j :: |moments| <= j < |names| ==> names[j] in s.queue && s.queue[names[j]] == start.queue[names[j]])
    && Progress(names, topics, moments, start, s.attempts[|start.attempts|..], s, processed)
  }

  lemma Started(names: seq<string>, start: Snapshot, topics: map<string, string>)
    requires IsQueueOrder(Mtimes(start.queue), names)
    ensures Underway(names, topics, [], start, start, 0, 0)
  {
    assert forall j :: 0 <= j < |names| ==> names[j] in start.queue;
    assert names[..0] == [] && start.attempts[|start.attempts|..] == [];
  }

  lemma UnderwayStep(names: seq<string>, topics: map<string, string>, moments: seq<Moment>, moment: Moment,
                     ending: Ending, start: Snapshot, s: Snapshot, s': Snapshot, publishAttempts: nat, processed: nat)
    requires |moments| < |names| && Underway(names, topics, moments, start, s, publishAttempts, processed)
    requires Ended(names[|moments|], ending, s, s')
    requires EndingFits(ending, FateOf(s.queue[names[|moments|]].content, topics, moment.checked),
                        publishAttempts < MAX_PUBLISH_ATTEMPTS_PER_RUN)
    requires ending.Retries? ==> ending.later == moment.later
    ensures Underway(names, topics, moments + [moment], start, s',
                     publishAttempts + (if ending.Publishes() then 1 else 0),
                     processed + (if ending.Stays? then 0 else 1))
  {
    var name := names[|moments|];
    OthersStay(name, ending, s, s');
    Tail(name, ending, start.attempts, s, s');
    ProgressStep(names, topics, moments, moment, start, ending, s.attempts[|start.attempts|..], s, processed,
                 s'.attempts[|start.attempts|..], s');
  }

  lemma OthersStay(name: string, ending: Ending, s: Snapshot, s': Snapshot)
    requires name in s.queue && Ended(name, ending, s, s')
    ensures forall n :: n != name && n in s.queue ==> n in s'.queue && s'.queue[n] == s.queue[n]
  {}

  lemma Tail(name: string, ending: Ending, start: seq<Attempt>, s: Snapshot, s': Snapshot)
    requires name in s.queue && Ended(name, ending, s, s') && start <= s.attempts
    ensures start <= s'.attempts
    ensures var tried, tried' := s.attempts[|start|..], s'.attempts[|start|..];
            match ending
            case Delivers(at) => tried' == tried + [Attempt(name, at, Accepted)]
            case Garbles(at) => tried' == tried + [Attempt(name, at, Garbled)]
            case Retries(at, _) => tried' == tried + [Attempt(name, at, Rejected)]
            case _ => tried' == tried
  {}

  /** One more attempt at a due file: the counts of all other files stay, its own stays within seven. */
  lemma AttemptCounted(queue: map<string, File>, before: seq<Attempt>, a: Attempt, known: set<string>, now: int)
    requires QueueTracked(queue, before) && TriesBounded(before) && AttemptsKnown(before, known)
    requires a.name in known && a.name in queue && queue[a.name].content.Readable?
    requires var m := queue[a.name].content.message; m.nextAttemptAt <= now < m.expiresAt
    requires a.outcome != Cut
    ensures Histories(queue - {a.name}, before + [a], known)
    ensures Counted(before + [a], a.name) == Counted(before, a.name) + 1 <= 7
  {
    var m := queue[a.name].content.message;
    assert Tracked(m, Counted(before, a.name));
    EighthTryIsExpired(m, Counted(before, a.name), now);
    forall n
      ensures Tries(before + [a], n) == Tries(before, n) + (if a.name == n then 1 else 0)
      ensures Counted(before + [a], n) == Counted(before, n) + (if a.name == n then 1 else 0)
    {
      TriesStep(before, a, n);
    }
  }
}

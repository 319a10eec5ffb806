/** The optional value used for "nothing to send". */
module Wrappers {
  datatype Option<+T> = None | Some(value: T)
}

/** The notification e-mail's content (`send_email_notification`, without SMTP). */
module Notify {
  import opened Wrappers
  import opened Text
  import opened Jobs

  /** The message's subject line. */
  const Subject: string := "New MLE Job Openings"

  /** The plain-text message handed to the mail transport. */
  datatype Message = Message(subject: string, body: string)

  /** The first line of a listing's entry: firm, title and location. */
  function Header(job: Job): string
  {
    job.firm + " - " + job.title + " - " + job.location
  }

  /** A listing's entry: its header, then its link on the next line. */
  function Entry(job: Job): string
  {
    Header(job) + "\n" + job.link
  }

  /** One entry per listing, in order. */
  function Entries(jobs: seq<Job>): (r: seq<string>)
    ensures |r| == |jobs|
  {
    seq(|jobs|, i requires 0 <= i < |jobs| => Entry(jobs[i]))
  }

  /** The message body: the entries joined by newlines. */
  function Body(jobs: seq<Job>): string
  {
    Join(Entries(jobs), '\n')
  }

  /** The message to send, or None when there is nothing new (no message, no send). */
  function Notification(jobs: seq<Job>): (r: Option<Message>)
    ensures r.None? <==> jobs == []
    ensures r.Some? ==> r.value.subject == Subject
  {
    if jobs == [] then None else Some(Message(Subject, Body(jobs)))
  }

  /** The lines a reader sees: for each listing in order, its header and then its link. */
  function Lines(jobs: seq<Job>): (r: seq<string>)
    ensures |r| == 2 * |jobs|
  {
    if jobs == [] then [] else [Header(jobs[0]), jobs[0].link] + Lines(jobs[1..])
  }

  /** No field of the listing contains a newline. */
  predicate SingleLine(job: Job)
  {
    Free(job.firm, '\n') && Free(job.title, '\n') && Free(job.location, '\n') && Free(job.link, '\n')
  }

  /** The body of a longer list is the first listing's entry, a newline, and the body of the rest. */
  lemma BodyCons(jobs: seq<Job>)
    requires |jobs| >= 2
    ensures Body(jobs) == Entry(jobs[0]) + "\n" + Body(jobs[1..])
  {
    assert Entries(jobs)[1..] == Entries(jobs[1..]);
  }

  /** The bodies of two non-empty lists, joined by a newline, form the body of their concatenation. */
  lemma BodyAppend(a: seq<Job>, b: seq<Job>)
    requires a != [] && b != []
    ensures Body(a + b) == Body(a) + "\n" + Body(b)
  {
    assert Entries(a + b) == Entries(a) + Entries(b);
    JoinAppend(Entries(a), Entries(b), '\n');
  }

  /** A single-line listing's header holds no newline. */
  lemma HeaderFree(job: Job)
    requires SingleLine(job)
    ensures Free(Header(job), '\n')
  {
  }

  /** A single-line listing's entry splits into its header and its link. */
  lemma EntryLines(job: Job)
    requires SingleLine(job)
    ensures Split(Entry(job), '\n') == [Header(job), job.link]
  {
    HeaderFree(job);
    assert Entry(job) == Header(job) + ['\n'] + job.link;
    SplitAtFirst(Header(job), job.link, '\n');
    SplitFree(job.link, '\n');
  }

  /** An entry followed by a newline and more text splits into header, link, and the rest's lines. */
  lemma EntryThenLines(job: Job, rest: string)
    requires SingleLine(job)
    ensures Split(Entry(job) + "\n" + rest, '\n') == [Header(job), job.link] + Split(rest, '\n')
  {
    HeaderFree(job);
    var h := Header(job);
    assert Entry(job) + "\n" + rest == h + ['\n'] + (job.link + ['\n'] + rest);
    SplitAtFirst(h, job.link + ['\n'] + rest, '\n');
    SplitAtFirst(job.link, rest, '\n');
  }

  /** Splitting the body into lines gives each listing's header followed by its link, in order. */
  lemma {:induction false} BodyLines(jobs: seq<Job>)
    requires jobs != []
    requires forall i :: 0 <= i < |jobs| ==> SingleLine(jobs[i])
    ensures Split(Body(jobs), '\n') == Lines(jobs)
  {
    if |jobs| == 1 {
      assert Body(jobs) == Entry(jobs[0]);
      EntryLines(jobs[0]);
    } else {
      BodyCons(jobs);
      BodyLines(jobs[1..]);
      EntryThenLines(jobs[0], Body(jobs[1..]));
    }
  }

  /** A non-empty list yields a message whose body holds every listing's header and link, in order. */
  lemma NotificationLines(jobs: seq<Job>)
    requires jobs != []
    requires forall i :: 0 <= i < |jobs| ==> SingleLine(jobs[i])
    ensures Notification(jobs).Some?
    ensures Split(Notification(jobs).value.body, '\n') == Lines(jobs)
  {
    BodyLines(jobs);
  }
}

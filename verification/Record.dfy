// Recipient standing: an append-only aggregate whose root chains every credit.
module Record {
  import opened Results
  import opened Ledger
  import opened HashChain
  import opened Histories

  datatype Error = NotAuthorized | NotFound | InvalidAmount | Overflow | AlreadyWriter | NotWriter

  const U32_MAX: int := 0xffff_ffff

  datatype Standing = Standing(
    subject: Address, programmes: nat, tranches: nat, totalReceived: int,
    firstSeen: nat, lastSeen: nat, historyRoot: Bytes32)

  // One accepted credit, as the contract's event log records it.
  datatype Credit = Credit(
    writer: Address, subject: Address, programme: Address, amount: int, attestation: Uid, at: nat)
  {
    function Link(codec: Codec): Link {
      HashChain.Link(programme, amount, codec.raw(attestation), at)
    }
  }

  datatype Book = Book(
    writers: set<Address>,
    standings: map<Address, Standing>,
    seen: set<(Address, Address)>,
    credits: seq<Credit>)

  // ---- the calls, as functions of the book ----

  function StandingOf(b: Book, subject: Address, now: nat): Standing {
    if subject in b.standings then b.standings[subject]
    else Standing(subject, 0, 0, 0, now, now, ZERO_ROOT)
  }

  function Extended(codec: Codec, s: Standing, c: Credit, isNew: bool): Standing {
    s.(programmes := s.programmes + if isNew then 1 else 0,
       tranches := s.tranches + 1,
       totalReceived := s.totalReceived + c.amount,
       lastSeen := c.at,
       historyRoot := Fold(codec, s.historyRoot, c.Link(codec)))
  }

  function CreditTranche(codec: Codec, b: Book, c: Credit): Result<Book, Error> {
    if c.writer !in b.writers then Err(NotAuthorized)
    else
      :- Need(0 < c.amount, InvalidAmount);
      var s := StandingOf(b, c.subject, c.at);
      var isNew := (c.subject, c.programme) !in b.seen;
      :- Need(isNew ==> s.programmes < U32_MAX, Overflow);
      :- Need(s.totalReceived + c.amount <= I128_MAX, Overflow);
      :- Need(s.tranches < U32_MAX, Overflow);
      Ok(b.(standings := b.standings[c.subject := Extended(codec, s, c, isNew)],
            seen := b.seen + {(c.subject, c.programme)},
            credits := b.credits + [c]))
  }

  function AddWriter(b: Book, writer: Address): Result<Book, Error> {
    if writer in b.writers then Err(AlreadyWriter)
    else
      Ok(b.(writers := b.writers + {writer}))
  }

  function RemoveWriter(b: Book, writer: Address): Result<Book, Error> {
    if writer !in b.writers then Err(NotWriter)
    else
      Ok(b.(writers := b.writers - {writer}))
  }

  // ---- the contract ----

  class RecordContract {
    const codec: Codec
    var writers: set<Address>
    var standings: map<Address, Standing>
    var seen: set<(Address, Address)>
    var credits: seq<Credit>

    ghost function View(): Book
      reads this
    {
      Book(writers, standings, seen, credits)
    }

    constructor (codec: Codec)
      ensures this.codec == codec
      ensures View() == Book({}, map[], {}, [])
    {
      this.codec := codec;
      writers, standings, seen, credits := {}, map[], {}, [];
    }

    // A call that fails part-way is undone by the host; only its error is observed.
    method CreditRelease(now: nat, writer: Address, subject: Address, programme: Address,
                         amount: int, attestation: Uid) returns (r: Result<Standing, Error>)
      modifies this
      ensures match CreditTranche(codec, old(View()), Credit(writer, subject, programme, amount, attestation, now))
              case Ok(next) => View() == next && r == Ok(next.standings[subject])
              case Err(e) => r == Err(e)
    {
      if writer !in writers {
        return Err(NotAuthorized);
      }
      if amount <= 0 {
        return Err(InvalidAmount);
      }
      var standing := Standing(subject, 0, 0, 0, now, now, ZERO_ROOT);
      if subject in standings {
        standing := standings[subject];
      }
      if (subject, programme) !in seen {
        if standing.programmes >= U32_MAX {
          return Err(Overflow);
        }
        seen := seen + {(subject, programme)};
        standing := standing.(programmes := standing.programmes + 1);
      }
      if standing.totalReceived + amount > I128_MAX {
        return Err(Overflow);
      }
      standing := standing.(totalReceived := standing.totalReceived + amount);
      if standing.tranches >= U32_MAX {
        return Err(Overflow);
      }
      standing := standing.(tranches := standing.tranches + 1, lastSeen := now);
      var root := FoldCredit(standing.historyRoot, programme, amount, attestation, now);
      standing := standing.(historyRoot := root);
      standings := standings[subject := standing];
      credits := credits + [Credit(writer, subject, programme, amount, attestation, now)];
      assert seen == old(seen) + {(subject, programme)};
      r := Ok(standing);
    }

    // Append the five fields to one buffer and hash it.
    method FoldCredit(root: Bytes32, programme: Address, amount: int, attestation: Uid, timestamp: nat)
      returns (next: Bytes32)
      ensures next == Fold(codec, root, Link(programme, amount, codec.raw(attestation), timestamp))
    {
      var preimage: seq<byte> := [];
      preimage := preimage + root;
      preimage := preimage + codec.xdr(programme);
      preimage := preimage + BigEndian(amount, 16);
      preimage := preimage + codec.raw(attestation);
      preimage := preimage + BigEndian(timestamp, 8);
      assert preimage == Preimage(codec, root, Link(programme, amount, codec.raw(attestation), timestamp));
      next := codec.sha256(preimage);
    }

    method AuthoriseWriter(writer: Address) returns (r: Result<(), Error>)
      modifies this
      ensures match AddWriter(old(View()), writer)
              case Ok(next) => r.Ok? && View() == next
              case Err(e) => r == Err(e) && View() == old(View())
    {
      if writer in writers {
        return Err(AlreadyWriter);
      }
      writers := writers + {writer};
      r := Ok(());
    }

    method RevokeWriter(writer: Address) returns (r: Result<(), Error>)
      modifies this
      ensures match RemoveWriter(old(View()), writer)
              case Ok(next) => r.Ok? && View() == next
              case Err(e) => r == Err(e) && View() == old(View())
    {
      if writer !in writers {
        return Err(NotWriter);
      }
      writers := writers - {writer};
      r := Ok(());
    }
  }

  // ---- what the aggregate says about the log ----

  // The credits of one subject, in order.
  function LogOf(credits: seq<Credit>, subject: Address): seq<Credit> {
    if credits == [] then []
    else
      var n := |credits| - 1;
      LogOf(credits[..n], subject) + if credits[n].subject == subject then [credits[n]] else []
  }

  function Links(codec: Codec, log: seq<Credit>): (links: seq<Link>)
    ensures |links| == |log|
    ensures forall i :: 0 <= i < |log| ==> links[i] == log[i].Link(codec)
  {
    if log == [] then []
    else Links(codec, log[..|log| - 1]) + [log[|log| - 1].Link(codec)]
  }

  function Received(log: seq<Credit>): int {
    if log == [] then 0 else Received(log[..|log| - 1]) + log[|log| - 1].amount
  }

  function ProgrammesIn(log: seq<Credit>): set<Address> {
    if log == [] then {} else ProgrammesIn(log[..|log| - 1]) + {log[|log| - 1].programme}
  }

  // A standing is exactly the summary of a non-empty log.
  ghost predicate Summarises(codec: Codec, s: Standing, subject: Address, log: seq<Credit>) {
    && log != []
    && s.subject == subject
    && s.tranches == |log|
    && s.totalReceived == Received(log)
    && s.programmes == |ProgrammesIn(log)|
    && s.firstSeen == log[0].at
    && s.lastSeen == log[|log| - 1].at
    && s.historyRoot == Chain(codec, Links(codec, log))
  }

  ghost predicate StandingSound(codec: Codec, b: Book, subject: Address) {
    var log := LogOf(b.credits, subject);
    && (subject in b.standings <==> log != [])
    && (subject in b.standings ==> Summarises(codec, b.standings[subject], subject, log))
  }

  ghost predicate SeenSound(b: Book, subject: Address) {
    forall p :: (subject, p) in b.seen <==> p in ProgrammesIn(LogOf(b.credits, subject))
  }

  ghost predicate SubjectSound(codec: Codec, b: Book, subject: Address) {
    StandingSound(codec, b, subject) && SeenSound(b, subject)
  }

  ghost predicate BookSound(codec: Codec, b: Book) {
    && (forall s :: SubjectSound(codec, b, s))
    && (forall i :: 0 <= i < |b.credits| ==> 0 < b.credits[i].amount <= I128_MAX && b.credits[i].at <= U64_MAX)
  }

  lemma {:induction false} AppendUpdates(codec: Codec, log: seq<Credit>, c: Credit)
    ensures Received(log + [c]) == Received(log) + c.amount
    ensures ProgrammesIn(log + [c]) == ProgrammesIn(log) + {c.programme}
    ensures Chain(codec, Links(codec, log + [c])) == Fold(codec, Chain(codec, Links(codec, log)), c.Link(codec))
  {
    assert (log + [c])[..|log|] == log;
    var links := Links(codec, log + [c]);
    assert links[..|log|] == Links(codec, log);
  }

  lemma {:induction false} LogOfAppend(credits: seq<Credit>, c: Credit, subject: Address)
    ensures LogOf(credits + [c], subject) ==
            if c.subject == subject then LogOf(credits, subject) + [c] else LogOf(credits, subject)
  {
    assert (credits + [c])[..|credits|] == credits;
  }

  lemma {:induction false} ExtendedSummarises(codec: Codec, s: Standing, log: seq<Credit>, c: Credit)
    requires log == [] ==> s == Standing(c.subject, 0, 0, 0, c.at, c.at, ZERO_ROOT)
    requires log != [] ==> Summarises(codec, s, c.subject, log)
    ensures Summarises(codec, Extended(codec, s, c, c.programme !in ProgrammesIn(log)), c.subject, log + [c])
  {
    hide Received, ProgrammesIn, Chain, Links, Fold, Credit.Link;
    if log == [] {
      EmptySummary(codec, log);
    }
    AppendUpdates(codec, log, c);
    assert c.programme in ProgrammesIn(log) ==> ProgrammesIn(log) + {c.programme} == ProgrammesIn(log);
    assert (log + [c])[0] == if log == [] then c else log[0];
  }

  lemma {:induction false} EmptySummary(codec: Codec, log: seq<Credit>)
    requires log == []
    ensures Received(log) == 0 && ProgrammesIn(log) == {} && Chain(codec, Links(codec, log)) == ZERO_ROOT
  {
  }

  lemma CreditWrites(codec: Codec, b: Book, c: Credit)
    requires SeenSound(b, c.subject)
    requires CreditTranche(codec, b, c).Ok?
    ensures var isNew := c.programme !in ProgrammesIn(LogOf(b.credits, c.subject));
            CreditTranche(codec, b, c).value ==
            b.(standings := b.standings[c.subject := Extended(codec, StandingOf(b, c.subject, c.at), c, isNew)],
               seen := b.seen + {(c.subject, c.programme)},
               credits := b.credits + [c])
  {
    hide LogOf, Extended, StandingOf, ProgrammesIn;
  }

  lemma CreditKeepsSeen(codec: Codec, b: Book, c: Credit)
    requires SeenSound(b, c.subject)
    requires CreditTranche(codec, b, c).Ok?
    ensures SeenSound(CreditTranche(codec, b, c).value, c.subject)
  {
    hide CreditTranche, LogOf, Extended, StandingOf, ProgrammesIn, Chain, Links, Received;
    CreditWrites(codec, b, c);
    LogOfAppend(b.credits, c, c.subject);
    AppendUpdates(codec, LogOf(b.credits, c.subject), c);
    var before, next := ProgrammesIn(LogOf(b.credits, c.subject)), CreditTranche(codec, b, c).value;
    forall p
      ensures (c.subject, p) in next.seen <==> p in before + {c.programme}
    {
    }
  }

  lemma CreditKeepsStanding(codec: Codec, b: Book, c: Credit)
    requires SubjectSound(codec, b, c.subject)
    requires CreditTranche(codec, b, c).Ok?
    ensures StandingSound(codec, CreditTranche(codec, b, c).value, c.subject)
  {
    var log := LogOf(b.credits, c.subject);
    CreditWrites(codec, b, c);
    LogOfAppend(b.credits, c, c.subject);
    ExtendedSummarises(codec, StandingOf(b, c.subject, c.at), log, c);
    hide CreditTranche, LogOf, Extended, ProgrammesIn, Summarises, SeenSound;
  }

  lemma CreditKeepsOwn(codec: Codec, b: Book, c: Credit)
    requires SubjectSound(codec, b, c.subject)
    requires CreditTranche(codec, b, c).Ok?
    ensures SubjectSound(codec, CreditTranche(codec, b, c).value, c.subject)
  {
    CreditKeepsStanding(codec, b, c);
    CreditKeepsSeen(codec, b, c);
  }

  lemma CreditFrame(codec: Codec, b: Book, c: Credit, subject: Address)
    requires subject != c.subject
    requires CreditTranche(codec, b, c).Ok?
    ensures var next := CreditTranche(codec, b, c).value;
            && next.credits == b.credits + [c]
            && (subject in next.standings <==> subject in b.standings)
            && (subject in b.standings ==> next.standings[subject] == b.standings[subject])
            && (forall p :: (subject, p) in next.seen <==> (subject, p) in b.seen)
  {
    hide Extended, StandingOf;
  }

  lemma CreditKeepsOther(codec: Codec, b: Book, c: Credit, subject: Address)
    requires SubjectSound(codec, b, subject)
    requires subject != c.subject
    requires CreditTranche(codec, b, c).Ok?
    ensures SubjectSound(codec, CreditTranche(codec, b, c).value, subject)
  {
    hide CreditTranche, LogOf, Summarises, ProgrammesIn;
    CreditFrame(codec, b, c, subject);
    LogOfAppend(b.credits, c, subject);
  }

  // Every accepted credit keeps every standing equal to the summary of its subject's log:
  // `programmes` counts distinct programmes, the total adds up and the root chains the log.
  lemma CreditKeepsBook(codec: Codec, b: Book, c: Credit)
    requires BookSound(codec, b)
    requires c.amount <= I128_MAX && c.at <= U64_MAX
    requires CreditTranche(codec, b, c).Ok?
    ensures BookSound(codec, CreditTranche(codec, b, c).value)
  {
    var next := CreditTranche(codec, b, c).value;
    forall s
      ensures SubjectSound(codec, next, s)
    {
      if s == c.subject {
        CreditKeepsOwn(codec, b, c);
      } else {
        CreditKeepsOther(codec, b, c, s);
      }
    }
  }

  // ---- runs ----

  datatype Call =
    | CallCredit(credit: Credit)
    | CallAddWriter(writer: Address)
    | CallRemoveWriter(writer: Address)

  function Next(codec: Codec, b: Book, call: Call): Book {
    var outcome :=
      match call
      case CallCredit(c) => CreditTranche(codec, b, c)
      case CallAddWriter(w) => AddWriter(b, w)
      case CallRemoveWriter(w) => RemoveWriter(b, w);
    if outcome.Ok? then outcome.value else b
  }

  // Amounts are i128 and ledger times u64.
  predicate WellTyped(call: Call) {
    call.CallCredit? ==> call.credit.amount <= I128_MAX && call.credit.at <= U64_MAX
  }

  lemma NextKeepsBook(codec: Codec, b: Book, call: Call)
    requires BookSound(codec, b)
    requires WellTyped(call)
    ensures BookSound(codec, Next(codec, b, call))
  {
    if call.CallCredit? && CreditTranche(codec, b, call.credit).Ok? {
      CreditKeepsBook(codec, b, call.credit);
    } else {
      assert forall s :: SubjectSound(codec, b, s) ==> SubjectSound(codec, Next(codec, b, call), s);
    }
  }

  function Run(codec: Codec, b: Book, calls: seq<Call>): Book
    decreases |calls|
  {
    if calls == [] then b else Run(codec, Next(codec, b, calls[0]), calls[1..])
  }

  const EMPTY := Book({}, map[], {}, [])

  lemma {:induction false} RunKeepsBook(codec: Codec, b: Book, calls: seq<Call>)
    requires BookSound(codec, b)
    requires forall i :: 0 <= i < |calls| ==> WellTyped(calls[i])
    ensures BookSound(codec, Run(codec, b, calls))
    decreases |calls|
  {
    if calls != [] {
      NextKeepsBook(codec, b, calls[0]);
      RunKeepsBook(codec, Next(codec, b, calls[0]), calls[1..]);
    }
  }

  // ---- who may credit ----

  lemma {:induction false} ProgrammesAreFew(log: seq<Credit>)
    ensures |ProgrammesIn(log)| <= |log|
  {
    if log != [] {
      ProgrammesAreFew(log[..|log| - 1]);
    }
  }

  // A credit is accepted exactly from an authorised writer, for a positive amount, while the subject's
  // total and their number of tranches stay in range. The count of programmes never decides.
  lemma CreditsExactly(codec: Codec, b: Book, c: Credit)
    requires BookSound(codec, b)
    ensures var log := LogOf(b.credits, c.subject);
            CreditTranche(codec, b, c).Ok? <==>
              && c.writer in b.writers
              && 0 < c.amount
              && Received(log) + c.amount <= I128_MAX
              && |log| < 4_294_967_295
    ensures CreditTranche(codec, b, c).Ok? ==>
              var next := CreditTranche(codec, b, c).value;
              && next.credits == b.credits + [c] && next.writers == b.writers
  {
    var log := LogOf(b.credits, c.subject);
    assert SubjectSound(codec, b, c.subject);
    ProgrammesAreFew(log);
    EmptyLog(log);
    hide LogOf, Received, ProgrammesIn, Chain, Links, Extended;
  }

  lemma EmptyLog(log: seq<Credit>)
    ensures log == [] ==> Received(log) == 0
  {
  }

  // The book a run leaves.
  function Reached(codec: Codec): seq<Call> -> Book {
    calls => Run(codec, EMPTY, calls)
  }

  lemma {:induction false} RunLast(codec: Codec, b: Book, calls: seq<Call>)
    requires calls != []
    ensures var n := |calls| - 1; Run(codec, b, calls) == Next(codec, Run(codec, b, calls[..n]), calls[n])
    decreases |calls|
  {
    var n := |calls| - 1;
    hide Next;
    if n > 0 {
      var first := Next(codec, b, calls[0]);
      RunLast(codec, first, calls[1..]);
      assert calls[1..][..n - 1] == calls[..n][1..];
    }
  }

  // The writer was added by a call of the run and removed by none since.
  ghost predicate Authorised(codec: Codec, calls: seq<Call>, writer: Address) {
    Since(Reached(codec), calls, (b: Book, c: Call) => c == CallAddWriter(writer), (b: Book, c: Call) => c == CallRemoveWriter(writer))
  }

  lemma NextOnWriters(codec: Codec, b: Book, call: Call, writer: Address)
    ensures writer in Next(codec, b, call).writers <==>
            call == CallAddWriter(writer) || (writer in b.writers && call != CallRemoveWriter(writer))
  {
    hide Extended, StandingOf;
  }

  // Whoever may credit after a run is whoever was added in it and not removed since.
  lemma {:induction false} WritersByHistory(codec: Codec, calls: seq<Call>, writer: Address)
    ensures writer in Run(codec, EMPTY, calls).writers <==> Authorised(codec, calls, writer)
  {
    hide Next, Run, Since;
    var on, off := (b: Book, c: Call) => c == CallAddWriter(writer), (b: Book, c: Call) => c == CallRemoveWriter(writer);
    var holds := (b: Book) => writer in b.writers;
    forall n | 0 < n <= |calls|
      ensures Decides(Reached(codec), calls[..n], on, off, holds)
    {
      var prefix := calls[..n];
      RunLast(codec, EMPTY, prefix);
      NextOnWriters(codec, Run(codec, EMPTY, prefix[..n - 1]), prefix[n - 1], writer);
    }
    EmptyAtFirst(codec);
    HoldsSince(Reached(codec), calls, on, off, holds);
  }

  lemma EmptyAtFirst(codec: Codec)
    ensures Reached(codec)([]) == EMPTY
  {
  }

  lemma NextOnCredits(codec: Codec, b: Book, call: Call)
    ensures var credits := Next(codec, b, call).credits;
            || credits == b.credits
            || (call.CallCredit? && call.credit.writer in b.writers && credits == b.credits + [call.credit])
  {
    hide Extended, StandingOf;
  }

  // Call k wrote this credit, when its writer was authorised.
  ghost predicate WrittenBy(codec: Codec, calls: seq<Call>, k: nat, c: Credit)
    requires k < |calls|
  {
    calls[k] == CallCredit(c) && Authorised(codec, calls[..k], c.writer)
  }

  // Every credit in the book was written by a call whose writer had been added by an earlier call and
  // not removed since.
  lemma {:induction false} EveryCreditWasAuthorised(codec: Codec, calls: seq<Call>, j: nat)
    requires j < |Run(codec, EMPTY, calls).credits|
    ensures exists k :: 0 <= k < |calls| && WrittenBy(codec, calls, k, Run(codec, EMPTY, calls).credits[j])
    decreases |calls|
  {
    if calls != [] {
      hide Next, Run, Authorised;
      var n := |calls| - 1;
      var before, c := Run(codec, EMPTY, calls[..n]), Run(codec, EMPTY, calls).credits[j];
      RunLast(codec, EMPTY, calls);
      NextOnCredits(codec, before, calls[n]);
      if j < |before.credits| {
        EveryCreditWasAuthorised(codec, calls[..n], j);
        var k :| 0 <= k < n && WrittenBy(codec, calls[..n], k, c);
        assert calls[..n][..k] == calls[..k];
        assert WrittenBy(codec, calls, k, c);
      } else {
        WritersByHistory(codec, calls[..n], c.writer);
        assert WrittenBy(codec, calls, n, c);
      }
    }
  }

  // What each error claims about the call it refuses.
  predicate Explains(b: Book, call: Call, e: Error) {
    match e
    case NotAuthorized => call.CallCredit? && call.credit.writer !in b.writers
    case InvalidAmount => call.CallCredit? && call.credit.amount <= 0
    case Overflow =>
      call.CallCredit? &&
      var log := LogOf(b.credits, call.credit.subject);
      I128_MAX < Received(log) + call.credit.amount || U32_MAX <= |log|
    case AlreadyWriter => call.CallAddWriter? && call.writer in b.writers
    case NotWriter => call.CallRemoveWriter? && call.writer !in b.writers
    case NotFound => false
  }

  // No error is ever false.
  lemma ErrorsAreTrue(codec: Codec, b: Book, call: Call)
    requires BookSound(codec, b)
    ensures match call
            case CallCredit(c) => (match CreditTranche(codec, b, c) case Ok(_) => true case Err(e) => Explains(b, call, e))
            case CallAddWriter(w) => (match AddWriter(b, w) case Ok(_) => true case Err(e) => Explains(b, call, e))
            case CallRemoveWriter(w) => (match RemoveWriter(b, w) case Ok(_) => true case Err(e) => Explains(b, call, e))
  {
    if call.CallCredit? {
      CreditsExactly(codec, b, call.credit);
      OnlyThreeErrors(codec, b, call.credit);
      hide BookSound, CreditTranche, LogOf, Received;
    }
  }

  lemma OnlyThreeErrors(codec: Codec, b: Book, c: Credit)
    ensures match CreditTranche(codec, b, c)
            case Ok(_) => true
            case Err(e) =>
              || (e == NotAuthorized && c.writer !in b.writers)
              || (e == InvalidAmount && c.amount <= 0)
              || (e == Overflow && c.writer in b.writers && 0 < c.amount)
  {
    hide Extended, StandingOf;
  }
}

/**
 The cross-process quote stop: several controllers publish their leg into one shared table
 and each decides the basket mode from every fresh row. An update is atomic.
 */
module PortfolioStop {
  import opened Common

  datatype Member = Member(account: string, coin: string)

  datatype Mode = Quote | Stop | Emergency | Unrecognized

  datatype BasketMode = QuoteAll | StopAll | EmergencyAll | Hold

  datatype Row = Row(ts: real, position: real, mid: real, mode: Mode)

  // The shared table, keyed by "account:coin".
  type Rows = map<string, Row>

  datatype Book = Book(members: set<Member>, stale: real)

  // One leg's report; None stands for a reading that is not finite.
  datatype Report = Report(
    member: Member, position: Option<real>, mid: Option<real>, mode: Mode, now: Option<real>)

  // Reduce-only stop targets from every leg's position and mid; supplied by a library.
  type FlatTargets = (map<Member, (real, real)>, Member) -> real

  datatype Decision = Decision(mode: BasketMode, target: real)

  function Name(m: Member): string { m.account + ":" + m.coin }

  function Names(book: Book): set<string> { set m | m in book.members :: Name(m) }

  predicate Valid(book: Book, r: Report) {
    && r.member in book.members && !r.mode.Unrecognized?
    && r.position.Some? && r.mid.Some? && r.mid.value > 0.0 && r.now.Some?
  }

  function Write(rows: Rows, r: Report): Rows
    requires r.position.Some? && r.mid.Some? && r.now.Some?
  {
    rows[Name(r.member) := Row(r.now.value, r.position.value, r.mid.value, r.mode)]
  }

  predicate IsFresh(book: Book, row: Row, now: real) { now - book.stale <= row.ts <= now + 1.0 }

  function Fresh(book: Book, rows: Rows, now: real): Rows {
    map name | name in rows && IsFresh(book, rows[name], now) && name in Names(book) :: rows[name]
  }

  function Legs(book: Book, live: Rows): map<Member, (real, real)>
    requires Names(book) <= live.Keys
  {
    map m | m in book.members && Name(m) in Names(book) :: (live[Name(m)].position, live[Name(m)].mid)
  }

  lemma {:induction false} NamesBounded(members: set<Member>)
    ensures |set m | m in members :: Name(m)| <= |members|
    decreases |members|
  {
    if members != {} {
      var m :| m in members;
      var rest := members - {m};
      NamesBounded(rest);
      assert (set x | x in members :: Name(x)) == (set x | x in rest :: Name(x)) + {Name(m)};
    }
  }

  // When as many fresh rows as members exist, every member has one.
  lemma AllFresh(book: Book, live: Rows)
    requires live.Keys <= Names(book) && |live| == |book.members|
    ensures Names(book) == live.Keys
  {
    NamesBounded(book.members);
    assert |Names(book) - live.Keys| == |Names(book)| - |live.Keys|;
  }

  function Decide(book: Book, rows: Rows, r: Report, flat: FlatTargets): Decision
    requires Valid(book, r)
  {
    var live := Fresh(book, rows, r.now.value);
    if exists name :: name in live && live[name].mode == Emergency then Decision(EmergencyAll, 0.0)
    else if |live| != |book.members| then Decision(Hold, r.position.value)
    else if !(exists name :: name in live && live[name].mode == Stop) then
      Decision(QuoteAll, r.position.value)
    else
      assert Names(book) == live.Keys by { AllFresh(book, live); }
      Decision(StopAll, flat(Legs(book, live), r.member))
  }

  // Upsert this leg's row, then decide from the whole table.
  function Update(book: Book, rows: Rows, r: Report, flat: FlatTargets): (Rows, Result<Decision>) {
    if !(r.member in book.members && !r.mode.Unrecognized?) then (rows, Failure("unknown portfolio leg or mode"))
    else if !(r.position.Some? && r.mid.Some? && r.mid.value > 0.0) then
      (rows, Failure("invalid portfolio position or mid"))
    else if r.now.None? then (rows, Failure("invalid portfolio timestamp"))
    else (Write(rows, r), Success(Decide(book, Write(rows, r), r, flat)))
  }

  // The member's row is no older than the limit and at most a second ahead.
  predicate RowFresh(book: Book, rows: Rows, name: string, now: real) {
    name in rows && rows[name].ts >= now - book.stale && rows[name].ts <= now + 1.0
  }

  // Accounts hold no colon, so a name tells its member.
  predicate PlainAccounts(book: Book) { forall m :: m in book.members ==> ':' !in m.account }

  lemma ShorterNameTells(a: Member, b: Member)
    requires ':' !in b.account && Name(a) == Name(b) && |a.account| <= |b.account|
    ensures a == b
  {
    var n := |a.account|;
    assert forall i :: 0 <= i < |b.account| ==> Name(b)[i] == b.account[i];
    assert Name(a)[n] == ':';
    assert n == |b.account|;
    assert a.account == Name(a)[..n] && b.account == Name(b)[..n];
    assert a.coin == Name(a)[n + 1..] && b.coin == Name(b)[n + 1..];
  }

  lemma NameTells(a: Member, b: Member)
    requires ':' !in a.account && ':' !in b.account && Name(a) == Name(b)
    ensures a == b
  {
    if |a.account| <= |b.account| { ShorterNameTells(a, b); } else { ShorterNameTells(b, a); }
  }

  predicate LegIs(book: Book, rows: Rows, m: Member, now: real, mode: Mode) {
    RowFresh(book, rows, Name(m), now) && rows[Name(m)].mode == mode
  }

  lemma {:induction false} NamesDistinct(members: set<Member>)
    requires forall a, b :: a in members && b in members && Name(a) == Name(b) ==> a == b
    ensures |set m | m in members :: Name(m)| == |members|
    decreases |members|
  {
    if members != {} {
      var m :| m in members;
      var rest := members - {m};
      NamesDistinct(rest);
      assert (set x | x in members :: Name(x)) == (set x | x in rest :: Name(x)) + {Name(m)};
    }
  }

  lemma FreshCount(book: Book, live: Rows)
    requires live.Keys <= Names(book)
    requires forall a, b :: a in book.members && b in book.members && Name(a) == Name(b) ==> a == b
    ensures |live| == |book.members| <==> live.Keys == Names(book)
  {
    NamesDistinct(book.members);
    if |live| == |book.members| { AllFresh(book, live); }
  }

  lemma FreshLegs(book: Book, rows: Rows, now: real, mode: Mode)
    ensures var live := Fresh(book, rows, now);
            (exists name :: name in live && live[name].mode == mode)
            <==> exists m :: m in book.members && LegIs(book, rows, m, now, mode)
  {
    hide Name;
    var live := Fresh(book, rows, now);
    if name :| name in live && live[name].mode == mode {
      var m :| m in book.members && Name(m) == name;
      assert LegIs(book, rows, m, now, mode);
    }
    if m :| m in book.members && LegIs(book, rows, m, now, mode) {
      assert Name(m) in live && live[Name(m)].mode == mode;
    }
  }

  lemma FreshComplete(book: Book, rows: Rows, now: real)
    requires PlainAccounts(book)
    ensures |Fresh(book, rows, now)| == |book.members|
            <==> forall m :: m in book.members ==> RowFresh(book, rows, Name(m), now)
  {
    hide Name;
    var live := Fresh(book, rows, now);
    forall a, b | a in book.members && b in book.members && Name(a) == Name(b) ensures a == b {
      NameTells(a, b);
    }
    FreshCount(book, live);
    assert forall m :: m in book.members ==> Name(m) in Names(book);
    assert forall m :: m in book.members ==> (Name(m) in live <==> RowFresh(book, rows, Name(m), now));
  }

  /** What the four basket modes mean, leg by leg: an emergency is any fresh emergency
      row, otherwise a hold is any member without a fresh row, otherwise a stop is any stop
      row, and quoting needs every member fresh and quoting. */
  lemma ModeMeaning(book: Book, rows: Rows, r: Report, flat: FlatTargets)
    requires Valid(book, r) && PlainAccounts(book)
    ensures var d := Update(book, rows, r, flat).1.value; var after := Update(book, rows, r, flat).0;
            var now := r.now.value;
            var emergency := exists m :: m in book.members && LegIs(book, after, m, now, Emergency);
            var complete := forall m :: m in book.members ==> RowFresh(book, after, Name(m), now);
            var stop := exists m :: m in book.members && LegIs(book, after, m, now, Stop);
            && (d.mode == EmergencyAll <==> emergency)
            && (d.mode == Hold <==> !emergency && !complete)
            && (d.mode == StopAll <==> !emergency && complete && stop)
            && (d.mode == QuoteAll <==> !emergency && complete && !stop)
  {
    hide Names, Name, Write, PlainAccounts, Fresh, LegIs, RowFresh;
    var after := Write(rows, r);
    FreshLegs(book, after, r.now.value, Emergency);
    FreshLegs(book, after, r.now.value, Stop);
    FreshComplete(book, after, r.now.value);
  }

  /** An update that is refused leaves the table alone; one that is accepted stores exactly
      what the leg reported, in its own row. */
  lemma StoredExactly(book: Book, rows: Rows, r: Report, flat: FlatTargets, name: string)
    ensures var (after, d) := Update(book, rows, r, flat);
            && (d.Success? <==>
                  r.member in book.members && (r.mode.Quote? || r.mode.Stop? || r.mode.Emergency?)
                  && r.position.Some? && r.mid.Some? && r.mid.value > 0.0 && r.now.Some?)
            && (d.Failure? ==> after == rows)
            && (d.Success? && name == r.member.account + ":" + r.member.coin ==>
                  name in after && after[name] == Row(r.now.value, r.position.value, r.mid.value, r.mode))
            && (name != r.member.account + ":" + r.member.coin ==>
                  (name in after <==> name in rows) && (name in rows ==> after[name] == rows[name]))
  {
  }

  /** A leg is told to hold its own position, or to keep it while everyone quotes; to go flat
      in an emergency; and in a stop to trade to the flat target computed from exactly the
      position and mid that every member has in its own row. */
  lemma TargetMeaning(book: Book, rows: Rows, r: Report, flat: FlatTargets, legs: map<Member, (real, real)>)
    requires Valid(book, r)
    requires legs.Keys == book.members
    requires var after := Update(book, rows, r, flat).0;
             forall m :: m in book.members && Name(m) in after ==>
               legs[m].0 == after[Name(m)].position && legs[m].1 == after[Name(m)].mid
    ensures var d := Update(book, rows, r, flat).1.value;
            match d.mode
            case QuoteAll => d.target == r.position.value
            case Hold => d.target == r.position.value
            case EmergencyAll => d.target == 0.0
            case StopAll => d.target == flat(legs, r.member)
  {
    var after := Write(rows, r);
    var live := Fresh(book, after, r.now.value);
    hide Write, Name, IsFresh;
    if |live| == |book.members| {
      AllFresh(book, live);
      forall m | m in book.members ensures Name(m) in live && live[Name(m)] == after[Name(m)] {
        assert Name(m) in Names(book);
      }
      assert Legs(book, live) == legs;
    }
  }

  // ---- Interleavings ----------------------------------------------------------------

  // One process's update: each has its own book and its own clock.
  datatype Step = Step(book: Book, report: Report)

  function After(rows: Rows, steps: seq<Step>, flat: FlatTargets): Rows {
    if steps == [] then rows
    else
      var last := steps[|steps| - 1];
      Update(last.book, After(rows, steps[..|steps| - 1], flat), last.report, flat).0
  }

  // A step that changes the row named `name`.
  predicate Writes(step: Step, name: string) {
    Valid(step.book, step.report) && Name(step.report.member) == name
  }

  // It reports the member named `name` out of its emergency.
  predicate Retracts(step: Step, name: string) { Writes(step, name) && step.report.mode != Emergency }

  lemma {:induction false} EmergencyRowStays(rows: Rows, steps: seq<Step>, name: string, flat: FlatTargets)
    requires name in rows && rows[name].mode == Emergency
    requires forall i :: 0 <= i < |steps| ==> !Retracts(steps[i], name)
    ensures name in After(rows, steps, flat) && After(rows, steps, flat)[name].mode == Emergency
  {
    if steps != [] {
      EmergencyRowStays(rows, steps[..|steps| - 1], name, flat);
    }
  }

  /** Once a member has published an emergency, through any interleaving of updates and any
      clocks, the publisher repeating itself included, no other member is told to quote or
      to trade to a stop target until the publisher reports another mode: the row is either
      fresh, and everyone flattens, or stale, and everyone holds. */
  lemma EmergencyPersists(rows: Rows, publisher: Step, steps: seq<Step>, next: Step, flat: FlatTargets)
    requires Valid(publisher.book, publisher.report) && publisher.report.mode == Emergency
    requires forall i :: 0 <= i < |steps| ==> !Retracts(steps[i], Name(publisher.report.member))
    requires Valid(next.book, next.report) && !Writes(next, Name(publisher.report.member))
    requires Name(publisher.report.member) in Names(next.book)
    ensures var published := Update(publisher.book, rows, publisher.report, flat).0;
            var d := Update(next.book, After(published, steps, flat), next.report, flat).1.value;
            (d.mode == EmergencyAll && d.target == 0.0)
            || (d.mode == Hold && d.target == next.report.position.value)
  {
    var name := Name(publisher.report.member);
    var published := Update(publisher.book, rows, publisher.report, flat).0;
    EmergencyRowStays(published, steps, name, flat);
    var table := Write(After(published, steps, flat), next.report);
    var live := Fresh(next.book, table, next.report.now.value);
    assert table[name].mode == Emergency;
    if |live| == |next.book.members| {
      AllFresh(next.book, live);
      assert name in live;
    }
  }

  /** The publisher itself is told to flatten at once. */
  lemma PublisherFlattens(book: Book, rows: Rows, r: Report, flat: FlatTargets)
    requires Valid(book, r) && book.stale > 0.0 && r.mode == Emergency
    ensures Update(book, rows, r, flat).1 == Success(Decision(EmergencyAll, 0.0))
  {
    var live := Fresh(book, Write(rows, r), r.now.value);
    assert Name(r.member) in Names(book);
    assert Name(r.member) in live && live[Name(r.member)].mode == Emergency;
  }

  // ---- The book object ----------------------------------------------------------------

  predicate IsAbsolute(path: string) { path != "" && path[0] == '/' }

  // The table both processes open.
  class Database {
    var rows: Rows

    constructor ()
      ensures rows == map[]
    {
      rows := map[];
    }
  }

  class PortfolioStopBook {
    const db: Database
    const members: set<Member>
    const stale: real

    ghost function View(): Book { Book(members, stale) }

    constructor (db: Database, members: set<Member>, stale: real)
      ensures this.db == db && View() == Book(members, stale)
    {
      this.db := db;
      this.members := members;
      this.stale := stale;
    }

    // A stop book needs an absolute path, legs of at least two accounts and a positive
    // staleness limit. `db` is the table behind the path.
    static method Open(path: string, db: Database, members: set<Member>, stale: Option<real>)
      returns (r: Result<PortfolioStopBook>)
      ensures r.Success? <==>
                IsAbsolute(path) && stale.Some? && stale.value > 0.0
                && exists a, b :: a in members && b in members && a.account != b.account
      ensures r.Success? ==> fresh(r.value) && r.value.db == db && r.value.View() == Book(members, stale.value)
    {
      if !IsAbsolute(path) {
        return Failure("portfolio stop database path must be absolute");
      }
      if !(exists a, b :: a in members && b in members && a.account != b.account) {
        return Failure("portfolio stop requires legs from at least two accounts");
      }
      if stale.None? || stale.value <= 0.0 {
        return Failure("stale_s must be finite and positive");
      }
      var book := new PortfolioStopBook(db, members, stale.value);
      return Success(book);
    }

    method UpdateLeg(r: Report, flat: FlatTargets) returns (d: Result<Decision>)
      modifies db
      ensures (db.rows, d) == Update(View(), old(db.rows), r, flat)
    {
      hide Name;
      if r.member !in members || r.mode.Unrecognized? {
        return Failure("unknown portfolio leg or mode");
      }
      if r.position.None? || r.mid.None? || r.mid.value <= 0.0 {
        return Failure("invalid portfolio position or mid");
      }
      if r.now.None? {
        return Failure("invalid portfolio timestamp");
      }
      var now := r.now.value;
      db.rows := db.rows[Name(r.member) := Row(now, r.position.value, r.mid.value, r.mode)];
      var names := set m | m in members :: Name(m);
      var live := map name | name in db.rows && now - stale <= db.rows[name].ts <= now + 1.0
                              && name in names :: db.rows[name];
      assert live == Fresh(View(), db.rows, now);
      if exists name :: name in live && live[name].mode == Emergency {
        return Success(Decision(EmergencyAll, 0.0));
      }
      if |live| != |members| {
        return Success(Decision(Hold, r.position.value));
      }
      if !(exists name :: name in live && live[name].mode == Stop) {
        return Success(Decision(QuoteAll, r.position.value));
      }
      AllFresh(View(), live);
      var legs := map m | m in members && Name(m) in names :: (live[Name(m)].position, live[Name(m)].mid);
      return Success(Decision(StopAll, flat(legs, r.member)));
    }
  }
}

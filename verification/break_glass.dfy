/** Emergency access: the configured subjects act as owners only while the fund has none,
    and each process latches that fact the first time it sees an owner. */
module BreakGlass {
  import opened Results
  import opened Consilium
  import opened Fund

  datatype Role = Owner | Persisted

  /** The subjects elevated by an answer of `count` owners; an unreadable register elevates
      nobody. */
  function FreshAnswer(elevates: seq<UserId>, count: Option<nat>): Option<seq<UserId>> {
    if elevates != [] && count == Some(0) then Some(elevates) else None
  }

  class Latch {
    const elevates: seq<UserId>
    var sealed: bool

    constructor (elevates: seq<UserId>)
      ensures this.elevates == elevates && !sealed
    {
      this.elevates, sealed := elevates, false;
    }

    /** `count` is what the register would answer now. */
    method Snapshot(count: Option<nat>) returns (elevation: Option<seq<UserId>>)
      modifies this`sealed
      ensures elevation == Elevation(elevates, old(sealed), count)
      ensures sealed == SealedAfter(elevates, old(sealed), count)
    {
      if elevates == [] || sealed {
        return None;
      }
      match count {
        case None => return None;
        case Some(n) =>
          if n == 0 {
            return Some(elevates);
          }
          sealed := true;
          return None;
      }
    }
  }

  function Elevation(elevates: seq<UserId>, sealed: bool, count: Option<nat>): Option<seq<UserId>> {
    if sealed then None else FreshAnswer(elevates, count)
  }

  function SealedAfter(elevates: seq<UserId>, sealed: bool, count: Option<nat>): bool {
    sealed || (elevates != [] && count.Some? && count.value > 0)
  }

  function RoleOf(elevation: Option<seq<UserId>>, who: UserId): Role {
    if elevation.Some? && who in elevation.value then Owner else Persisted
  }

  /** A snapshot between its read of the register and its answer. */
  datatype Reading = Reading(process: nat, count: Option<nat>)

  /** The fund, the processes that have sealed their latch, and the snapshots taken: under way,
      answered, and, for each, what the register would have told it when it began. */
  datatype World = World(
    fund: Register, sealed: set<nat>,
    under: map<nat, Reading>, answers: map<nat, Option<seq<UserId>>>, shown: map<nat, Option<nat>>)

  datatype Event =
    | FundMoves(step: Step)
    | Begins(call: nat, process: nat, readable: bool)
    | Ends(call: nat)

  function Start(fund: Register): World {
    World(fund, {}, map[], map[], map[])
  }

  function CountShown(w: World, readable: bool): Option<nat> {
    if readable then Some(|w.fund.owners|) else None
  }

  /** A sealed latch, or a list that elevates nobody, answers without reading. */
  function Begun(w: World, elevates: seq<UserId>, call: nat, process: nat, readable: bool): World {
    if call in w.shown then w
    else
      var v := w.(shown := w.shown[call := CountShown(w, readable)]);
      if elevates == [] || process in w.sealed then v.(answers := v.answers[call := None])
      else v.(under := v.under[call := Reading(process, CountShown(w, readable))])
  }

  /** The answer comes later, from the count that was read. */
  function Ended(w: World, elevates: seq<UserId>, call: nat): World {
    if call !in w.under then w
    else
      var r := w.under[call];
      w.(under := w.under - {call}, answers := w.answers[call := FreshAnswer(elevates, r.count)],
         sealed := if SealedAfter(elevates, false, r.count) then w.sealed + {r.process} else w.sealed)
  }

  function Next(w: World, elevates: seq<UserId>, e: Event): World {
    match e
    case FundMoves(step) => w.(fund := Apply(w.fund, step))
    case Begins(call, process, readable) => Begun(w, elevates, call, process, readable)
    case Ends(call) => Ended(w, elevates, call)
  }

  function History(w: World, elevates: seq<UserId>, events: seq<Event>): World {
    if events == [] then w else Next(History(w, elevates, events[..|events| - 1]), elevates, events[|events| - 1])
  }

  /** A latch is sealed, or about to be, only over a fund that has owners. */
  ghost predicate Sound(w: World, elevates: seq<UserId>) {
    && Seats(w.fund)
    && (w.sealed != {} ==> w.fund.owners != [])
    && (forall c :: c in w.shown && w.shown[c].Some? && w.shown[c].value > 0 ==> w.fund.owners != [])
    && (forall c :: c in w.under ==> c in w.shown && w.under[c].count == w.shown[c])
    && (forall c :: c in w.answers ==> c in w.shown && w.answers[c] == FreshAnswer(elevates, w.shown[c]))
  }

  lemma BeginKeeps(w: World, elevates: seq<UserId>, call: nat, process: nat, readable: bool)
    requires Sound(w, elevates)
    ensures Sound(Begun(w, elevates, call, process, readable), elevates)
  {
  }

  lemma EndKeeps(w: World, elevates: seq<UserId>, call: nat)
    requires Sound(w, elevates)
    ensures Sound(Ended(w, elevates, call), elevates)
  {
  }

  lemma {:induction false} HistoryIsSound(w: World, elevates: seq<UserId>, events: seq<Event>)
    requires Sound(w, elevates)
    ensures Sound(History(w, elevates, events), elevates)
    ensures w.fund.owners != [] ==> History(w, elevates, events).fund.owners != []
    decreases |events|
  {
    if events != [] {
      var before := History(w, elevates, events[..|events| - 1]);
      HistoryIsSound(w, elevates, events[..|events| - 1]);
      match events[|events| - 1] {
        case FundMoves(step) => StepKeepsSeats(before.fund, step);
        case Begins(call, process, readable) => BeginKeeps(before, elevates, call, process, readable);
        case Ends(call) => EndKeeps(before, elevates, call);
      }
    }
  }

  /** The cached fact is never wrong: in every history, however snapshots of any processes
      overlap, each is answered as an unlatched reading taken when it began would be. */
  lemma LatchIsNeverWrong(fund: Register, elevates: seq<UserId>, events: seq<Event>, call: nat)
    requires Seats(fund)
    requires call in History(Start(fund), elevates, events).answers
    ensures var w := History(Start(fund), elevates, events);
            call in w.shown && w.answers[call] == FreshAnswer(elevates, w.shown[call])
  {
    HistoryIsSound(Start(fund), elevates, events);
  }

  lemma {:induction false} HistoryConcat(w: World, elevates: seq<UserId>, first: seq<Event>, second: seq<Event>)
    ensures History(w, elevates, first + second) == History(History(w, elevates, first), elevates, second)
    decreases |second|
  {
    if second == [] {
      assert first + second == first;
    } else {
      assert (first + second)[..|first + second| - 1] == first + second[..|second| - 1];
      HistoryConcat(w, elevates, first, second[..|second| - 1]);
    }
  }

  lemma StepShows(w: World, elevates: seq<UserId>, e: Event)
    ensures var v := Next(w, elevates, e);
            && (forall c :: c in w.shown ==> c in v.shown && v.shown[c] == w.shown[c])
            && (forall c :: c in v.shown && c !in w.shown ==> v.shown[c].None? || v.shown[c].value == |w.fund.owners|)
  {
  }

  /** What a snapshot was shown never changes, and one begun over a seated fund was never shown
      an empty register. */
  lemma {:induction false} ShownOnceSeated(w: World, elevates: seq<UserId>, events: seq<Event>)
    requires Sound(w, elevates) && w.fund.owners != []
    ensures var v := History(w, elevates, events);
            && (forall c :: c in w.shown ==> c in v.shown && v.shown[c] == w.shown[c])
            && (forall c :: c in v.shown && c !in w.shown ==> v.shown[c] != Some(0))
    decreases |events|
  {
    if events != [] {
      ShownOnceSeated(w, elevates, events[..|events| - 1]);
      HistoryIsSound(w, elevates, events[..|events| - 1]);
      StepShows(History(w, elevates, events[..|events| - 1]), elevates, events[|events| - 1]);
    }
  }

  /** Once the first owner is seated no snapshot that begins afterwards elevates anybody, of
      any process, however long it takes to answer. */
  lemma NobodyElevatedOnceSeated(fund: Register, elevates: seq<UserId>, first: seq<Event>, later: seq<Event>,
                                 call: nat, who: UserId)
    requires Seats(fund)
    requires var w := History(Start(fund), elevates, first); w.fund.owners != [] && call !in w.shown
    requires call in History(Start(fund), elevates, first + later).answers
    ensures RoleOf(History(Start(fund), elevates, first + later).answers[call], who) == Persisted
  {
    var w := History(Start(fund), elevates, first);
    HistoryIsSound(Start(fund), elevates, first);
    HistoryConcat(Start(fund), elevates, first, later);
    HistoryIsSound(w, elevates, later);
    ShownOnceSeated(w, elevates, later);
  }

  /** And whoever is elevated, by a snapshot that began before, was elevated by one that read
      an empty register: exactly those listed, by exactly those snapshots. */
  lemma ElevatedExactly(fund: Register, elevates: seq<UserId>, events: seq<Event>, call: nat, who: UserId)
    requires Seats(fund)
    requires call in History(Start(fund), elevates, events).answers
    ensures var w := History(Start(fund), elevates, events);
            RoleOf(w.answers[call], who) == Owner <==> who in elevates && call in w.shown && w.shown[call] == Some(0)
  {
    HistoryIsSound(Start(fund), elevates, events);
  }

  /** What a snapshot does from its start to its answer: it is remembered with what the register
      would have told it; an unlatched process with somebody to elevate then reads, and answers
      by what it read, latching when that was an owner; any other is answered at once. */
  lemma SnapshotDoes(w: World, elevates: seq<UserId>, call: nat, process: nat, readable: bool)
    requires call !in w.shown && call !in w.under
    ensures var begun := Next(w, elevates, Begins(call, process, readable));
            var ended := Next(begun, elevates, Ends(call));
            var count := if readable then Some(|w.fund.owners|) else None;
            && begun.fund == w.fund && begun.sealed == w.sealed && begun.shown == w.shown[call := count]
            && (elevates == [] || process in w.sealed ==>
                  begun.under == w.under && begun.answers == w.answers[call := None] && ended == begun)
            && (elevates != [] && process !in w.sealed ==>
                  && begun.answers == w.answers && call in begun.under
                  && (forall c :: c != call ==> (c in begun.under <==> c in w.under))
                  && (forall c :: c in w.under ==> begun.under[c] == w.under[c])
                  && ended.under == w.under && ended.fund == w.fund && ended.shown == begun.shown
                  && ended.answers == w.answers[call := if count == Some(0) then Some(elevates) else None]
                  && ended.sealed == w.sealed + if readable && w.fund.owners != [] then {process} else {})
  {
  }
}

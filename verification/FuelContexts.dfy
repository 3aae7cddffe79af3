/**
 The fuel of one agent execution (kernel/src/fuel_hardening.rs, `FuelContext` and
 `FuelReservation`).  Every operation holds the context's lock, so an
 interleaving is a sequence of operations.  A reservation is consumed once, by
 commit, cancel or drop; as in the source, commit and cancel end in the drop.
 */
module FuelContexts {
  import opened Common

  /** The fuel held by a set of reservations. */
  ghost function Held(reservations: set<FuelReservation>): nat {
    if reservations == {} then 0
    else
      var r :| r in reservations;
      r.amount + Held(reservations - {r})
  }

  lemma {:induction false} HeldWithout(reservations: set<FuelReservation>, r: FuelReservation)
    requires r in reservations
    ensures Held(reservations) == r.amount + Held(reservations - {r})
    decreases |reservations|
  {
    var first :| first in reservations && Held(reservations) == first.amount + Held(reservations - {first});
    if first != r {
      HeldWithout(reservations - {first}, r);
      HeldWithout(reservations - {r}, first);
      assert reservations - {first} - {r} == reservations - {r} - {first};
    }
  }

  class FuelContext {
    const initial: nat
    var remaining: nat

    /** The reservations that were neither committed, cancelled nor dropped. */
    ghost var open: set<FuelReservation>
    ghost var deducted: nat
    ghost var committed: nat

    /** No fuel is created or lost. */
    ghost predicate Valid()
      reads this, open
    {
      && initial <= U64_MAX
      && remaining + Held(open) + committed + deducted == initial
      && (forall r :: r in open ==> r.context == this && !r.committed)
    }

    constructor (initial: nat)
      requires initial <= U64_MAX
      ensures Valid() && this.initial == remaining == initial && open == {} && deducted == 0 && committed == 0
    {
      this.initial, remaining, open, deducted, committed := initial, initial, {}, 0, 0;
    }

    method Deduct(amount: nat) returns (ok: bool)
      requires Valid()
      modifies this`remaining, this`deducted
      ensures Valid() && ok == (amount <= old(remaining))
      ensures remaining == old(remaining) - (if ok then amount else 0)
      ensures deducted == old(deducted) + if ok then amount else 0
    {
      if remaining < amount {
        return false;
      }
      remaining, deducted := remaining - amount, deducted + amount;
      return true;
    }

    method Reserve(amount: nat) returns (reservation: FuelReservation?)
      requires Valid()
      modifies this`remaining, this`open
      ensures Valid() && (reservation == null <==> amount > old(remaining))
      ensures reservation == null ==> remaining == old(remaining) && open == old(open)
      ensures reservation != null ==>
                && fresh(reservation) && reservation.amount == amount && reservation.context == this
                && remaining == old(remaining) - amount && open == old(open) + {reservation}
    {
      if remaining < amount {
        return null;
      }
      reservation := new FuelReservation(this, amount);
      HeldWithout(open + {reservation}, reservation);
      assert open + {reservation} - {reservation} == open;
      remaining, open := remaining - amount, open + {reservation};
    }
  }

  class FuelReservation {
    const context: FuelContext
    const amount: nat
    var committed: bool

    constructor (context: FuelContext, amount: nat)
      ensures this.context == context && this.amount == amount && !committed
    {
      this.context, this.amount, committed := context, amount, false;
    }

    /** Finalise: the fuel is gone for good. */
    method Commit()
      requires context.Valid() && this in context.open
      modifies this, context
      ensures context.Valid() && context.open == old(context.open) - {this}
      ensures context.remaining == old(context.remaining) && context.committed == old(context.committed) + amount
      ensures context.deducted == old(context.deducted)
    {
      HeldWithout(context.open, this);
      committed := true;
      context.open, context.committed := context.open - {this}, context.committed + amount;
      Drop();
    }

    /** Return the fuel. */
    method Cancel()
      requires context.Valid() && this in context.open
      modifies this, context
      ensures context.Valid() && context.open == old(context.open) - {this}
      ensures context.remaining == old(context.remaining) + amount <= U64_MAX
      ensures context.committed == old(context.committed) && context.deducted == old(context.deducted)
    {
      if !committed {
        GiveBack();
        committed := true;
      }
      Drop();
    }

    /** Going out of scope: an unfinished reservation returns its fuel, a finished one does nothing. */
    method Drop()
      requires context.Valid() && (committed <==> this !in context.open)
      modifies this, context
      ensures context.Valid() && context.open == old(context.open) - {this}
      ensures context.remaining == old(context.remaining) + (if old(committed) then 0 else amount) <= U64_MAX
      ensures context.committed == old(context.committed) && context.deducted == old(context.deducted)
    {
      if !committed {
        GiveBack();
      }
    }

    /** The addition of the source: it cannot overflow. */
    method GiveBack()
      requires context.Valid() && this in context.open
      modifies context
      ensures context.Valid() && context.open == old(context.open) - {this}
      ensures context.remaining == old(context.remaining) + amount <= U64_MAX
      ensures context.committed == old(context.committed) && context.deducted == old(context.deducted)
    {
      HeldWithout(context.open, this);
      assert context.remaining + amount <= U64_MAX;
      context.remaining, context.open := context.remaining + amount, context.open - {this};
    }
  }

  // ------------------------------------------------------------------
  // Whole runs
  // ------------------------------------------------------------------

  /** `i` picks one of the reservations still held. */
  datatype Call = Deduct(amount: nat) | Reserve(amount: nat) | Commit(i: nat) | Cancel(i: nat) | Drop(i: nat)

  /** The books of a context on paper: `held` are the reservations still open, oldest first. */
  datatype Book = Book(remaining: nat, held: seq<nat>, committed: nat, deducted: nat)

  function Without<T>(s: seq<T>, i: nat): seq<T>
    requires i < |s|
  {
    s[..i] + s[i + 1..]
  }

  /** Whether a call takes effect: enough fuel for it, or a reservation to finish. */
  predicate Effective(book: Book, call: Call) {
    match call
    case Deduct(amount) => amount <= book.remaining
    case Reserve(amount) => amount <= book.remaining
    case Commit(i) => i < |book.held|
    case Cancel(i) => i < |book.held|
    case Drop(i) => i < |book.held|
  }

  function Next(book: Book, call: Call): Book {
    if !Effective(book, call) then book
    else
      match call
      case Deduct(amount) => book.(remaining := book.remaining - amount, deducted := book.deducted + amount)
      case Reserve(amount) => book.(remaining := book.remaining - amount, held := book.held + [amount])
      case Commit(i) => book.(held := Without(book.held, i), committed := book.committed + book.held[i])
      case Cancel(i) => book.(held := Without(book.held, i), remaining := book.remaining + book.held[i])
      case Drop(i) => book.(held := Without(book.held, i), remaining := book.remaining + book.held[i])
  }

  /** The books after `calls`. */
  function After(initial: nat, calls: seq<Call>): Book {
    if calls == [] then Book(initial, [], 0, 0)
    else Next(After(initial, calls[..|calls| - 1]), calls[|calls| - 1])
  }

  function Sum(amounts: seq<nat>): nat {
    if amounts == [] then 0 else Sum(amounts[..|amounts| - 1]) + amounts[|amounts| - 1]
  }

  lemma {:induction false} SumWithout(amounts: seq<nat>, i: nat)
    requires i < |amounts|
    ensures Sum(amounts) == Sum(Without(amounts, i)) + amounts[i]
  {
    var front, rest := amounts[..|amounts| - 1], Without(amounts, i);
    if i < |front| {
      SumWithout(front, i);
      assert rest[..|rest| - 1] == Without(front, i);
    } else {
      assert rest == front;
    }
  }

  /** Conservation on paper, over any calls. */
  lemma {:induction false} BooksBalance(initial: nat, calls: seq<Call>)
    ensures var book := After(initial, calls); book.remaining + Sum(book.held) + book.committed + book.deducted == initial
  {
    if calls != [] {
      var front, call := After(initial, calls[..|calls| - 1]), calls[|calls| - 1];
      BooksBalance(initial, calls[..|calls| - 1]);
      if Effective(front, call) && !call.Deduct? {
        if call.Reserve? {
          assert (front.held + [call.amount])[..|front.held|] == front.held;
        } else {
          SumWithout(front.held, call.i);
        }
      }
    }
  }

  /** The reservations in `kept` are the open ones, each once. */
  ghost predicate Keeps(open: set<FuelReservation>, kept: seq<FuelReservation>) {
    && (forall i, j :: 0 <= i < j < |kept| ==> kept[i] != kept[j])
    && (forall r :: r in kept ==> r in open) && (forall r :: r in open ==> r in kept)
  }

  ghost predicate Amounting(kept: seq<FuelReservation>, held: seq<nat>) {
    |kept| == |held| && forall i :: 0 <= i < |kept| ==> kept[i].amount == held[i]
  }

  /** The context and its open reservations are what the books say. */
  ghost predicate Agrees(context: FuelContext, kept: seq<FuelReservation>, book: Book)
    reads context
  {
    && context.remaining == book.remaining && context.committed == book.committed && context.deducted == book.deducted
    && Keeps(context.open, kept) && Amounting(kept, book.held)
  }

  lemma KeepsWithout(open: set<FuelReservation>, kept: seq<FuelReservation>, held: seq<nat>, i: nat)
    requires Keeps(open, kept) && Amounting(kept, held) && i < |kept|
    ensures kept[i] in open && kept[i].amount == held[i]
    ensures Keeps(open - {kept[i]}, Without(kept, i)) && Amounting(Without(kept, i), Without(held, i))
  {
    var rest := Without(kept, i);
    forall r | r in open - {kept[i]} ensures r in rest {
      var j :| 0 <= j < |kept| && kept[j] == r;
      assert r == rest[if j < i then j else j - 1];
    }
  }

  /** Finish one reservation. */
  method Consume(context: FuelContext, kept: seq<FuelReservation>, call: Call, ghost book: Book)
    returns (rest: seq<FuelReservation>)
    requires context.Valid() && Agrees(context, kept, book)
    requires (call.Commit? || call.Cancel? || call.Drop?) && call.i < |kept|
    modifies context, context.open
    ensures context.Valid() && Agrees(context, rest, Next(book, call)) && context.open <= old(context.open)
  {
    hide Keeps, Amounting, Without;
    KeepsWithout(context.open, kept, book.held, call.i);
    SameLength(kept, book.held);
    var reservation := kept[call.i];
    rest := Without(kept, call.i);
    match call {
      case Commit(_) => reservation.Commit();
      case Cancel(_) => reservation.Cancel();
      case Drop(_) => reservation.Drop();
    }
  }

  lemma SameLength(kept: seq<FuelReservation>, held: seq<nat>)
    requires Amounting(kept, held)
    ensures |kept| == |held|
  {
  }

  lemma KeepsMore(open: set<FuelReservation>, kept: seq<FuelReservation>, held: seq<nat>, r: FuelReservation)
    requires Keeps(open, kept) && Amounting(kept, held) && r !in open
    ensures Keeps(open + {r}, kept + [r]) && Amounting(kept + [r], held + [r.amount])
  {
    assert forall other :: other in kept + [r] <==> other in kept || other == r;
  }

  /** Reserve, and remember the reservation. */
  method Take(context: FuelContext, kept: seq<FuelReservation>, amount: nat, ghost book: Book)
    returns (all: seq<FuelReservation>, ok: bool)
    requires context.Valid() && Agrees(context, kept, book)
    modifies context
    ensures context.Valid() && Agrees(context, all, Next(book, Reserve(amount)))
    ensures ok == Effective(book, Reserve(amount))
    ensures forall r :: r in context.open ==> r in old(context.open) || fresh(r)
  {
    hide Keeps, Amounting;
    all := kept;
    ghost var open := context.open;
    var reservation := context.Reserve(amount);
    ok := reservation != null;
    if reservation != null {
      KeepsMore(open, kept, book.held, reservation);
      all := kept + [reservation];
    }
  }

  /** One call. */
  method Step(context: FuelContext, kept: seq<FuelReservation>, call: Call, ghost book: Book)
    returns (after: seq<FuelReservation>, ok: bool)
    requires context.Valid() && Agrees(context, kept, book)
    modifies context, context.open
    ensures context.Valid() && Agrees(context, after, Next(book, call))
    ensures ok == Effective(book, call)
    ensures forall r :: r in context.open ==> r in old(context.open) || fresh(r)
  {
    hide Keeps, Amounting;
    SameLength(kept, book.held);
    match call {
      case Deduct(amount) =>
        ok := context.Deduct(amount);
        after := kept;
      case Reserve(amount) => after, ok := Take(context, kept, amount, book);
      case _ =>
        after, ok := kept, call.i < |kept|;
        if ok {
          after := Consume(context, kept, call, book);
        }
    }
  }

  /** Which of the calls took effect. */
  ghost predicate Outcomes(initial: nat, calls: seq<Call>, outcomes: seq<bool>)
    requires |outcomes| <= |calls|
  {
    forall k :: 0 <= k < |outcomes| ==> OutcomeAt(initial, calls, outcomes, k)
  }

  ghost predicate OutcomeAt(initial: nat, calls: seq<Call>, outcomes: seq<bool>, k: nat)
    requires k < |outcomes| <= |calls|
  {
    outcomes[k] == Effective(After(initial, calls[..k]), calls[k])
  }

  lemma AfterStep(initial: nat, calls: seq<Call>, n: nat)
    requires n < |calls|
    ensures After(initial, calls[..n + 1]) == Next(After(initial, calls[..n]), calls[n])
  {
    assert calls[..n + 1][..n] == calls[..n];
  }

  /** The amounts of some reservations. */
  method Amounts(kept: seq<FuelReservation>) returns (amounts: seq<nat>)
    ensures |amounts| == |kept| && forall i :: 0 <= i < |kept| ==> amounts[i] == kept[i].amount
  {
    amounts := [];
    for i := 0 to |kept|
      invariant |amounts| == i && forall j :: 0 <= j < i ==> amounts[j] == kept[j].amount
    {
      amounts := amounts + [kept[i].amount];
    }
  }

  /**
   Any interleaving does to the context what the books say, call by call, so
   remaining, held, committed and deducted fuel add up to the initial fuel.
   */
  method AnyRun(initial: nat, calls: seq<Call>) returns (outcomes: seq<bool>, remaining: nat, held: seq<nat>)
    requires initial <= U64_MAX
    ensures |outcomes| == |calls| && Outcomes(initial, calls, outcomes)
    ensures var book := After(initial, calls);
            && remaining == book.remaining && held == book.held
            && remaining + Sum(held) + book.committed + book.deducted == initial
  {
    hide Keeps, Next, Effective, After;
    var context := new FuelContext(initial);
    var kept: seq<FuelReservation> := [];
    outcomes := [];
    NothingYet(context, initial, calls);
    for n := 0 to |calls|
      invariant fresh(context) && (forall r :: r in context.open ==> fresh(r))
      invariant context.Valid() && Agrees(context, kept, After(initial, calls[..n]))
      invariant |outcomes| == n && Outcomes(initial, calls, outcomes)
    {
      AfterStep(initial, calls, n);
      ghost var earlier := outcomes;
      var ok;
      kept, ok := Step(context, kept, calls[n], After(initial, calls[..n]));
      outcomes := outcomes + [ok];
      forall k | 0 <= k <= n ensures OutcomeAt(initial, calls, outcomes, k) {
        assert k < n ==> OutcomeAt(initial, calls, earlier, k);
      }
    }
    assert calls[..|calls|] == calls;
    BooksBalance(initial, calls);
    remaining := context.remaining;
    held := Amounts(kept);
  }

  lemma NothingYet(context: FuelContext, initial: nat, calls: seq<Call>)
    requires context.open == {} && context.remaining == initial && context.committed == 0 && context.deducted == 0
    ensures Agrees(context, [], After(initial, calls[..0]))
  {
  }
}

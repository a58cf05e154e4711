/**
 * Observer and mediator: a search text box keeps an append-only list of
 * observers; typing appends the word to its search term and then notifies
 * the observers, in registration order, with the new term. A mediator
 * registers itself with the text box when it is built and forwards every hint
 * to the searchable object it was given.
 */
module ObserverMediator {

  /** The searchable objects a mediator forwards to. Their search only echoes
      highlighted text, so a search is recorded as a call, not run. */
  datatype Searchable = Document | Internet

  /** One recorded call of search(word) on a searchable object. */
  datatype Call = Search(target: Searchable, word: string)

  /** What one notification did: the search calls it issued, in order, and
      whether one of them raised, which ends the notification at that call. */
  datatype Delivery = Delivery(calls: seq<Call>, raised: bool)

  /** Reference behaviour of notifying `observers` with `hint`, when exactly the
      searchable objects in `raising` raise from their search. Each observer in
      turn issues one call; the first raising call ends the fan-out. */
  function Deliver(observers: seq<Mediator>, hint: string, raising: set<Searchable>): (d: Delivery)
  {
    if observers == [] then Delivery([], false)
    else
      var call := Search(observers[0].affectedClass, hint);
      if observers[0].affectedClass in raising then Delivery([call], true)
      else
        var rest := Deliver(observers[1..], hint, raising);
        Delivery([call] + rest.calls, rest.raised)
  }

  /** When no search raises, every observer gets exactly one call, in
      registration order, carrying the identical hint. */
  lemma {:induction false} DeliverReachesEveryObserverInOrder(observers: seq<Mediator>, hint: string, raising: set<Searchable>)
    requires forall i :: 0 <= i < |observers| ==> observers[i].affectedClass !in raising
    ensures !Deliver(observers, hint, raising).raised
    ensures |Deliver(observers, hint, raising).calls| == |observers|
    ensures forall i :: 0 <= i < |observers| ==>
              Deliver(observers, hint, raising).calls[i] == Search(observers[i].affectedClass, hint)
  {
    if observers != [] {
      DeliverReachesEveryObserverInOrder(observers[1..], hint, raising);
    }
  }

  /** Fail-fast: when observer k is the first whose search raises, observers
      0..k are called once each, in order, the exception surfaces, and no later
      observer is called. */
  lemma {:induction false} DeliverStopsAtFirstRaise(observers: seq<Mediator>, hint: string, raising: set<Searchable>, k: nat)
    requires k < |observers| && observers[k].affectedClass in raising
    requires forall i :: 0 <= i < k ==> observers[i].affectedClass !in raising
    ensures Deliver(observers, hint, raising).raised
    ensures |Deliver(observers, hint, raising).calls| == k + 1
    ensures forall i :: 0 <= i <= k ==>
              Deliver(observers, hint, raising).calls[i] == Search(observers[i].affectedClass, hint)
  {
    if k > 0 {
      DeliverStopsAtFirstRaise(observers[1..], hint, raising, k - 1);
    }
  }

  /** An observer registered last is notified last, after everything the
      earlier observers received, unless an earlier search already raised. */
  lemma {:induction false} DeliverToAppended(observers: seq<Mediator>, m: Mediator, hint: string, raising: set<Searchable>)
    ensures Deliver(observers + [m], hint, raising) ==
              if Deliver(observers, hint, raising).raised then Deliver(observers, hint, raising)
              else Delivery(Deliver(observers, hint, raising).calls + [Search(m.affectedClass, hint)],
                            m.affectedClass in raising)
  {
    if observers == [] {
      assert observers + [m] == [m];
    } else {
      assert (observers + [m])[1..] == observers[1..] + [m];
      DeliverToAppended(observers[1..], m, hint, raising);
    }
  }

  /** A search text box. The observable part (an append-only observer list
      and its notification) belongs to the text box, its one concrete kind. */
  class SearchTextBox {
    var observers: seq<Mediator>
    var searchTerm: string

    /** The observer list and the search term both start empty. */
    constructor ()
      ensures observers == [] && searchTerm == ""
    {
      observers := [];
      searchTerm := "";
    }

    /** Append an observer; no duplicate check. */
    method Register(observer: Mediator)
      modifies this
      ensures observers == old(observers) + [observer]
      ensures searchTerm == old(searchTerm)
    {
      observers := observers + [observer];
    }

    /** Call update(hint) on each observer in registration order; an exception
        from an update propagates out of the loop at once. */
    method Notify(hint: string, raising: set<Searchable>) returns (d: Delivery)
      ensures d == Deliver(observers, hint, raising)
    {
      var calls: seq<Call> := [];
      var i := 0;
      while i < |observers|
        invariant 0 <= i <= |observers|
        invariant Deliver(observers, hint, raising) ==
                    Delivery(calls + Deliver(observers[i..], hint, raising).calls,
                             Deliver(observers[i..], hint, raising).raised)
      {
        assert observers[i..][1..] == observers[i + 1..];
        var call, raised := observers[i].Update(hint, raising);
        calls := calls + [call];
        if raised {
          return Delivery(calls, true);
        }
        i := i + 1;
      }
      d := Delivery(calls, false);
    }

    /** Append the typed word to the search term, then notify every observer
        with the new accumulated term. */
    method Type(word: string, raising: set<Searchable>) returns (d: Delivery)
      modifies this
      ensures searchTerm == old(searchTerm) + word
      ensures observers == old(observers)
      ensures d == Deliver(observers, searchTerm, raising)
    {
      searchTerm := searchTerm + word;
      d := Notify(searchTerm, raising);
    }
  }

  /** Links a text box to a searchable object without either knowing the other. */
  class Mediator {
    const observedClass: SearchTextBox
    const affectedClass: Searchable

    /** Building a mediator registers it, last, with the observed text box. */
    constructor (observedClass: SearchTextBox, affectedClass: Searchable)
      modifies observedClass
      ensures this.observedClass == observedClass && this.affectedClass == affectedClass
      ensures observedClass.observers == old(observedClass.observers) + [this]
      ensures observedClass.searchTerm == old(observedClass.searchTerm)
    {
      this.observedClass := observedClass;
      this.affectedClass := affectedClass;
      new;
      observedClass.Register(this);
    }

    /** Forward the hint, unchanged, to the affected object's search; `raised`
        says whether that search raised. */
    method Update(hint: string, raising: set<Searchable>) returns (call: Call, raised: bool)
      ensures call == Search(affectedClass, hint)
      ensures raised <==> affectedClass in raising
    {
      call := Search(affectedClass, hint);
      raised := affectedClass in raising;
    }
  }

  /** The demonstration: two mediators built on one text box, the first for
      a document and the second for the internet; typing "content" searches
      the document first and then the internet, both for "content". */
  method TypeContentScenario() returns (d: Delivery)
    ensures d == Delivery([Search(Document, "content"), Search(Internet, "content")], false)
  {
    var textbox := new SearchTextBox();
    var toDocument := new Mediator(textbox, Document);
    var toInternet := new Mediator(textbox, Internet);
    d := textbox.Type("content", {});
    assert textbox.observers == [toDocument, toInternet];
    assert textbox.searchTerm == "content";
    DeliverReachesEveryObserverInOrder(textbox.observers, "content", {});
  }

  /** Registering the same mediator twice makes every notification reach it twice. */
  lemma DuplicateRegistrationDeliversTwice(m: Mediator, hint: string)
    ensures Deliver([m, m], hint, {}) == Delivery([Search(m.affectedClass, hint), Search(m.affectedClass, hint)], false)
  {
    DeliverReachesEveryObserverInOrder([m, m], hint, {});
  }
}

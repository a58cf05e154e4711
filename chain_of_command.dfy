/**
 * Chain of responsibility over the window -> form -> button hierarchy.
 * An event name enters at a node; the node announces an attempt, then either
 * acts on the event itself or forwards the unchanged name to its parent.
 * The root (a window) has no parent and raises on every name it cannot handle.
 */
module ChainOfCommand {

  /** A chainable node. A form or a button is given its parent once, at
      construction, and never re-parented; a window is the root. Because the
      parent is part of the value, every chain is finite and acyclic. */
  datatype Node = Window | Form(parent: Node) | Button(parent: Node)

  /** What a node does when it takes an event itself. */
  datatype Action = HideWindow | ChangeColour

  /** How a dispatch ended: handled by a node, or the root's exception. */
  datatype Outcome = Handled(handler: Node, action: Action) | Unhandled(eventName: string)

  /** The nodes that announced "attempting to handle", in order, and the outcome. */
  datatype Dispatch = Dispatch(visited: seq<Node>, outcome: Outcome)

  /** Number of parent links between n and the root. */
  function Depth(n: Node): (depth: nat)
  {
    match n
    case Window => 0
    case Form(p) => 1 + Depth(p)
    case Button(p) => 1 + Depth(p)
  }

  /** The ancestor path: n, its parent, its parent's parent, ..., the root. */
  function Ancestors(n: Node): (path: seq<Node>)
    ensures |path| == Depth(n) + 1
    ensures path[0] == n && path[|path| - 1] == Window
    ensures forall i :: 0 <= i < |path| - 1 ==> !path[i].Window? && path[i + 1] == path[i].parent
  {
    match n
    case Window => [Window]
    case Form(p) => [n] + Ancestors(p)
    case Button(p) => [n] + Ancestors(p)
  }

  /** The event names a node resolves without forwarding: a window takes
      "click", a button takes "mouseover", a form takes nothing. */
  predicate CanHandle(n: Node, eventName: string)
  {
    match n
    case Window => eventName == "click"
    case Form(_) => false
    case Button(_) => eventName == "mouseover"
  }

  /** The action the capable node performs. */
  predicate ActsAs(n: Node, action: Action)
  {
    (n.Window? && action == HideWindow) || (n.Button? && action == ChangeColour)
  }

  /** d is a dispatch of eventName from n along the chain: its trace is a
      non-empty prefix of n's ancestor path, every node on it but the last
      declined, a handled dispatch ends at a capable node that performs its
      action, and an unhandled one visited the whole path up to the root and
      carries the event name. */
  ghost predicate ClimbsToFirstCapable(n: Node, eventName: string, d: Dispatch)
  {
    && 1 <= |d.visited| <= Depth(n) + 1
    && d.visited == Ancestors(n)[..|d.visited|]
    && (forall i :: 0 <= i < |d.visited| - 1 ==> !CanHandle(d.visited[i], eventName))
    && (d.outcome.Handled? <==> CanHandle(d.visited[|d.visited| - 1], eventName))
    && (d.outcome.Handled? ==>
          d.outcome.handler == d.visited[|d.visited| - 1] && ActsAs(d.outcome.handler, d.outcome.action))
    && (d.outcome.Unhandled? ==> d.visited == Ancestors(n) && d.outcome.eventName == eventName)
  }

  /** Offer eventName to n: the node announces an attempt, then acts or
      forwards the name to its parent. The dispatch ends at the first capable
      ancestor, or at the root with its exception when there is none. */
  function Handle(n: Node, eventName: string): (d: Dispatch)
    ensures ClimbsToFirstCapable(n, eventName, d)
  {
    match n
    case Window =>
      Dispatch([n], if eventName == "click" then Handled(n, HideWindow) else Unhandled(eventName))
    case Form(p) =>
      var up := Handle(p, eventName);
      ForwardingExtendsClimb(n, eventName, up);
      Dispatch([n] + up.visited, up.outcome)
    case Button(p) =>
      if eventName == "mouseover" then Dispatch([n], Handled(n, ChangeColour))
      else
        var up := Handle(p, eventName);
        ForwardingExtendsClimb(n, eventName, up);
        Dispatch([n] + up.visited, up.outcome)
  }

  /** A node that declines and forwards turns its parent's dispatch into its own. */
  lemma ForwardingExtendsClimb(n: Node, eventName: string, up: Dispatch)
    requires !n.Window? && !CanHandle(n, eventName)
    requires ClimbsToFirstCapable(n.parent, eventName, up)
    ensures ClimbsToFirstCapable(n, eventName, Dispatch([n] + up.visited, up.outcome))
  {
    ForwardedTraceIsPrefix(n, up.visited);
    ForwardedNodesDeclined(n, eventName, up.visited);
  }

  /** Prefixing a node to a prefix of its parent's path gives a prefix of its own. */
  lemma ForwardedTraceIsPrefix(n: Node, upVisited: seq<Node>)
    requires !n.Window? && 1 <= |upVisited| <= |Ancestors(n.parent)|
    requires upVisited == Ancestors(n.parent)[..|upVisited|]
    ensures [n] + upVisited == Ancestors(n)[..|upVisited| + 1]
  {
  }

  /** A node that declined, followed by nodes that declined, all declined. */
  lemma ForwardedNodesDeclined(n: Node, eventName: string, upVisited: seq<Node>)
    requires !CanHandle(n, eventName) && 1 <= |upVisited|
    requires forall i :: 0 <= i < |upVisited| - 1 ==> !CanHandle(upVisited[i], eventName)
    ensures forall i :: 0 <= i < |upVisited| ==> !CanHandle(([n] + upVisited)[i], eventName)
  {
  }

  /** The message of the exception a window raises for an event it cannot handle. */
  function ExceptionMessage(o: Outcome): (msg: string)
    requires o.Unhandled?
    ensures |msg| == 20 + |o.eventName|
    ensures msg[..20] == "Cannot handle event " && msg[20..] == o.eventName
  {
    "Cannot handle event " + o.eventName
  }

  /** The dispatch ends at the FIRST capable ancestor: the trace is the path up
      to it and it is the handler. */
  lemma HandledByFirstCapableAncestor(n: Node, eventName: string, i: nat)
    requires i < |Ancestors(n)| && CanHandle(Ancestors(n)[i], eventName)
    requires forall j :: 0 <= j < i ==> !CanHandle(Ancestors(n)[j], eventName)
    ensures Handle(n, eventName).visited == Ancestors(n)[..i + 1]
    ensures Handle(n, eventName).outcome.Handled?
    ensures Handle(n, eventName).outcome.handler == Ancestors(n)[i]
  {
    // The last visited node, k, is capable and every earlier one declined,
    // so k == i: k < i would contradict the first requires, k > i the second.
    var k := |Handle(n, eventName).visited| - 1;
    assert k <= i && i <= k;
  }

  /** With no capable ancestor the whole path is visited and the root raises. */
  lemma UnhandledWhenNoAncestorCapable(n: Node, eventName: string)
    requires forall j :: 0 <= j < |Ancestors(n)| ==> !CanHandle(Ancestors(n)[j], eventName)
    ensures Handle(n, eventName) == Dispatch(Ancestors(n), Unhandled(eventName))
  {
  }

  /** A node that declines forwards the identical name to its parent: its
      dispatch is its own attempt followed by the parent's dispatch. */
  lemma DeclinedEventIsForwarded(n: Node, eventName: string)
    requires !n.Window? && !CanHandle(n, eventName)
    ensures Handle(n, eventName).visited == [n] + Handle(n.parent, eventName).visited
    ensures Handle(n, eventName).outcome == Handle(n.parent, eventName).outcome
  {
  }

  /** A form never handles an event itself. */
  lemma FormAlwaysForwards(p: Node, eventName: string)
    ensures !CanHandle(Form(p), eventName)
    ensures Handle(Form(p), eventName) == Dispatch([Form(p)] + Handle(p, eventName).visited, Handle(p, eventName).outcome)
  {
    DeclinedEventIsForwarded(Form(p), eventName);
  }

  /** A button handles "mouseover" itself, changing its colour, and forwards nothing. */
  lemma ButtonHandlesMouseover(p: Node)
    ensures CanHandle(Button(p), "mouseover")
    ensures Handle(Button(p), "mouseover") == Dispatch([Button(p)], Handled(Button(p), ChangeColour))
  {
  }

  /** A button forwards every other name unchanged. */
  lemma ButtonForwardsOtherEvents(p: Node, eventName: string)
    requires eventName != "mouseover"
    ensures !CanHandle(Button(p), eventName)
    ensures Handle(Button(p), eventName) == Dispatch([Button(p)] + Handle(p, eventName).visited, Handle(p, eventName).outcome)
  {
    DeclinedEventIsForwarded(Button(p), eventName);
  }

  /** A window hides itself on "click" and raises 'Cannot handle event <name>' on anything else. */
  lemma WindowHandlesOnlyClick(eventName: string)
    ensures CanHandle(Window, eventName) <==> eventName == "click"
    ensures Handle(Window, eventName).visited == [Window]
    ensures eventName == "click" ==> Handle(Window, eventName).outcome == Handled(Window, HideWindow)
    ensures eventName != "click" ==>
              Handle(Window, eventName).outcome.Unhandled? &&
              ExceptionMessage(Handle(Window, eventName).outcome) == "Cannot handle event " + eventName
  {
  }

  /** Button.mouseover: offer "mouseover" to the button. */
  function Mouseover(button: Node): (d: Dispatch)
    requires button.Button?
    ensures d == Dispatch([button], Handled(button, ChangeColour))
  {
    Handle(button, "mouseover")
  }

  /** Button.click: no button or form takes "click", so from any button the
      event climbs the whole ancestor path and the root window hides. */
  function Click(button: Node): (d: Dispatch)
    requires button.Button?
    ensures d == Dispatch(Ancestors(button), Handled(Window, HideWindow))
  {
    var path := Ancestors(button);
    HandledByFirstCapableAncestor(button, "click", |path| - 1);
    Handle(button, "click")
  }

  /** Button.weirdAction: no node takes "weirdaction", so from any button the
      event climbs the whole ancestor path and the root window raises. */
  function WeirdAction(button: Node): (d: Dispatch)
    requires button.Button?
    ensures d == Dispatch(Ancestors(button), Unhandled("weirdaction"))
  {
    UnhandledWhenNoAncestorCapable(button, "weirdaction");
    Handle(button, "weirdaction")
  }

  /** The demonstration hierarchy window -> form -> button. */
  const DemoForm: Node := Form(Window)
  const DemoButton: Node := Button(DemoForm)

  /** In the demonstration hierarchy: mouseover stops at the button; click
      climbs to the window, which hides; weirdaction climbs to the window,
      which raises. */
  lemma DemoHierarchy()
    ensures Mouseover(DemoButton) == Dispatch([DemoButton], Handled(DemoButton, ChangeColour))
    ensures Click(DemoButton) == Dispatch([DemoButton, DemoForm, Window], Handled(Window, HideWindow))
    ensures WeirdAction(DemoButton) == Dispatch([DemoButton, DemoForm, Window], Unhandled("weirdaction"))
  {
  }
}

# Design-pattern demonstrations, modelled in Dafny

This project models the five PHP design-pattern demonstrations that hold real
logic, one Dafny module per PHP file, and proves what each one does:

- `ChainOfCommand` (`chain_of_command.dfy`): a chain of responsibility over
  window -> form -> button. A node is a datatype value that holds its parent,
  so every chain is finite and acyclic. `Handle` returns the trace of nodes
  that announced an attempt together with the outcome: handled by a node, or
  the window's exception (`Unhandled`). Its contract says the trace is a prefix
  of the ancestor path and that the dispatch ends at the first capable
  ancestor, or at the root when no ancestor is capable.
- `ObserverMediator` (`mediator.dfy`): a search text box has an append-only
  list of observers and a search term. `Type` appends the word to the term, then
  notifies the observers. A mediator registers itself when it is built and forwards each
  hint to a searchable object. `Notify` is a loop proved equal to the
  reference fan-out `Deliver`. The lemmas prove registration order, exactly one
  delivery per registration, and fail-fast when a search raises.
- `Memento` (`memento.dfy`): a rectangle with setters, and an immutable
  memento datatype. Save then restore is a round trip.
- `Flyweight` (`flyweight.dfy`): a block factory that lazily caches one block.
  Across the demonstration's 10000 requests, exactly one block is made.
- `Composite` (`composite.dfy`): a composite shop item with an ordered child
  list. Its description and stock-room notification are folds over the
  children, and both are proved to split along a split of the children.

Echoed text is never modelled as strings. A handled event is recorded as an
action (`HideWindow`, `ChangeColour`). A search is recorded as a `Search` call.
A stock-room message is recorded as a `Sold` update.

Three facts about the chain of command shape its model:

- The window throws an exception for an event it cannot handle. The model
  returns this as an `Unhandled(eventName)` outcome, and `ExceptionMessage`
  gives the exception's text.
- Capabilities are fixed by node kind, as the `switch` statements fix them.
- The code has no check against cyclic chains. In the model a cycle cannot be
  built at all, because a node holds its parent as a value.

## Model

| member | source | states |
|---|---|---|
| `ChainOfCommand.Ancestors` | chain_of_command.php:10-16 | The path from a node to the root starts at the node, ends at the window, has depth+1 entries, and each entry is the parent given to the previous one at construction. |
| `ChainOfCommand.Handle` | chain_of_command.php:20-59 | The trace is a non-empty prefix of the ancestor path, so at most depth+1 nodes are visited. Every node but the last declined. The dispatch is handled exactly when the last node is capable, and then that node is the handler and does its own action. An unhandled dispatch visited the whole path and carries the event name. |
| `ChainOfCommand.ExceptionMessage` | chain_of_command.php:28 | The exception text is "Cannot handle event " followed by exactly the event name. |
| `ChainOfCommand.HandledByFirstCapableAncestor` | chain_of_command.php:20-59 | If ancestor i is the first capable one, the trace is the path up to and including i, and i handles the event. |
| `ChainOfCommand.UnhandledWhenNoAncestorCapable` | chain_of_command.php:20-59 | If no ancestor is capable, the whole path is visited and the outcome is `Unhandled` with the event name. |
| `ChainOfCommand.DeclinedEventIsForwarded` | chain_of_command.php:36-57 | A non-root node that declines forwards the identical name. Its dispatch is its own attempt followed by its parent's dispatch, with the parent's outcome. |
| `ChainOfCommand.FormAlwaysForwards` | chain_of_command.php:35-43 | A form is capable of no event. It forwards every event name to its parent, and its dispatch is its own attempt followed by its parent's dispatch. |
| `ChainOfCommand.ButtonHandlesMouseover` | chain_of_command.php:51-54 | A button is capable of "mouseover". It handles the event itself by changing its colour, and nothing is forwarded. |
| `ChainOfCommand.ButtonForwardsOtherEvents` | chain_of_command.php:55-57 | A button is capable of no name other than "mouseover", and forwards every such name unchanged to its parent. |
| `ChainOfCommand.WindowHandlesOnlyClick` | chain_of_command.php:21-31 | A window is capable of exactly "click", and hides itself on it. On any other name it raises 'Cannot handle event <name>'. |
| `ChainOfCommand.Mouseover` | chain_of_command.php:61-64 | Button.mouseover is handled by the button itself, with the according trace. |
| `ChainOfCommand.Click` | chain_of_command.php:66-69 | Only a window takes "click", so from any button the event climbs the whole ancestor path and the root window hides. |
| `ChainOfCommand.WeirdAction` | chain_of_command.php:71-74 | No node takes "weirdaction", so from any button the event climbs the whole ancestor path and is unhandled at the root. |
| `ChainOfCommand.DemoHierarchy` | chain_of_command.php:84-91 | In window -> form -> button: mouseover is handled by the button; click visits button, form and window and is handled by the window; weirdaction visits all three and is unhandled. |
| `ObserverMediator.DeliverReachesEveryObserverInOrder` | mediator.php:19-23 | When no search raises, notify calls each registered observer exactly once, in registration order, with the identical hint. |
| `ObserverMediator.DeliverStopsAtFirstRaise` | mediator.php:20-22 | If observer k is the first whose search raises, observers 0..k are called once each, in order, the exception surfaces, and no later observer is called. |
| `ObserverMediator.DeliverToAppended` | mediator.php:15-23 | An observer appended last is notified after all earlier observers, unless an earlier one raised. |
| `ObserverMediator.DuplicateRegistrationDeliversTwice` | mediator.php:15-17 | Registering one mediator twice makes each notification reach it twice. |
| `ObserverMediator.SearchTextBox.constructor` | mediator.php:13-28 | A new text box has no observers and an empty search term. |
| `ObserverMediator.SearchTextBox.Register` | mediator.php:15-17 | Appends the observer at the end without a duplicate check. The search term is untouched. |
| `ObserverMediator.SearchTextBox.Notify` | mediator.php:19-23 | The loop issues exactly the calls of the reference fan-out `Deliver`. It has no modifies clause, so the observer list and the term are unchanged. |
| `ObserverMediator.SearchTextBox.Type` | mediator.php:32-35 | The new term is the old term followed by the word. The observers are unchanged. The notification carries the new accumulated term. |
| `ObserverMediator.Mediator.constructor` | mediator.php:71-75 | Stores both collaborators and registers the new mediator, last, with the observed text box. |
| `ObserverMediator.Mediator.Update` | mediator.php:77-79 | Forwards the hint unchanged to the affected object's search. It raises exactly when that search raises. |
| `ObserverMediator.TypeContentScenario` | mediator.php:82-87 | With a document mediator and then an internet mediator on one text box, typing "content" searches the document and then the internet, both for "content". |
| `Memento.RectangleMemento.GetState` | memento.php:23-33 | Returns exactly the height and width the memento was built with. |
| `Memento.EditsTouchOnlyTheirDimension` | memento.php:43-48 | Over any mix of setter calls, the final width is what the width calls alone make of the starting dimensions, and the final height is what the height calls alone make of them. So over height calls only the width stays, and over width calls only the height stays. |
| `Memento.EditedDependsOnlyOnOwnDimension` | memento.php:43-48 | After any sequence of setter calls, the width depends on the starting dimensions only through the starting width, and the height only through the starting height. |
| `Memento.Rectangle.constructor` | memento.php:41 | A new rectangle has neither dimension set (null). |
| `Memento.Rectangle.SetHeight` | memento.php:43-45 | Sets the height. The width is unchanged. |
| `Memento.Rectangle.SetWidth` | memento.php:46-48 | Sets the width. The height is unchanged. |
| `Memento.Rectangle.SaveState` | memento.php:49-51 | Returns a memento holding the current height and width. The rectangle does not change (no modifies clause). |
| `Memento.Rectangle.RestoreState` | memento.php:52-56 | Sets both height and width to the memento's values. |
| `Memento.Rectangle.ApplyEdits` | memento.php:43-48 | A sequence of setter calls leaves the rectangle at `Edited` of its old dimensions. |
| `Memento.Rectangle.SaveEditRestore` | memento.php:49-56 | Save, any sequence of setter calls, restore: the rectangle is back at the saved dimensions, and the memento still holds them. |
| `Memento.UndoScenario` | memento.php:60-74 | 10x10 is saved; after setHeight(100) the rectangle is 100x10 and the memento is still 10x10; after restoring, the rectangle is 10x10. |
| `Flyweight.Block.constructor` | flyweight.php:6-8 | The block holds the image bytes it was given. |
| `Flyweight.Block.Draw` | flyweight.php:10-12 | Drawing returns the block's image. |
| `Flyweight.DrawIgnoresPosition` | flyweight.php:10-12 | The drawing is the same at every position. |
| `Flyweight.BlockFactory.constructor` | flyweight.php:15-16 | A new factory has an empty cache and has made no block. |
| `Flyweight.BlockFactory.MakeBlock` | flyweight.php:18-23 | On an empty cache, makes one fresh block and caches it. Otherwise returns the cached block and makes nothing. Afterwards the cache is non-null and equals the returned block. |
| `Flyweight.DrawLoop` | flyweight.php:31-35 | Across 10000 requests, every request returns the same block, every drawing is the image, and exactly one block is made. |
| `Composite.FixedDescriptions` | composite.php:23-35 | The leaves describe themselves as "a nice cuddly toy" and "a cheap chocolate bar". An empty composite gives "". |
| `Composite.JoinDescriptionsAppend` | composite.php:57-63 | A composite's description splits along any split of its children into two concatenated descriptions. |
| `Composite.JoinUpdatesAppend` | composite.php:51-55 | A composite's stock-room updates split along any split of its children. |
| `Composite.FlatCompositeSellsEachLeafOnce` | composite.php:51-55 | A composite of leaves notifies the stock room once per child, in child order. |
| `Composite.FlatCompositeDescribesSoldProducts` | composite.php:51-63 | For a composite of leaves, the description is " and " plus the description of each notified product, in the same order. |
| `Composite.NestedCompositeDescription` | composite.php:57-63 | A composite nested as the only child contributes " and " followed by its own description. |
| `Composite.NonEmptyDescriptionStartsWithAnd` | composite.php:57-63 | A composite with at least one child has a description that starts with " and ", so it is never empty. |
| `Composite.CompositeShopItem.constructor` | composite.php:38 | A new composite has no children. |
| `Composite.CompositeShopItem.AddChild` | composite.php:40-42 | Appends the item at the end. Earlier children keep their order. |
| `Composite.CompositeShopItem.GetDescription` | composite.php:57-63 | The accumulating loop returns the recursive description of the composite: " and " plus each child's description, in order, or "" when there are no children. |
| `Composite.CompositeShopItem.NotifyStockRoom` | composite.php:51-55 | The loop notifies each child once, in child order, and recurses into nested composites. |
| `Composite.AddChildExtends` | composite.php:40-63 | After adding a child, the description gains " and " plus the child's description, and the updates gain the child's updates. |
| `Composite.TwoChildDescription` | composite.php:57-63 | A two-child composite is described as " and " x " and " y. |
| `Composite.ToyAndBarDescription` | composite.php:88-90 | A composite of a toy then a chocolate bar is described as " and a nice cuddly toy and a cheap chocolate bar". |
| `Composite.ToyAndBarUpdates` | composite.php:88-91 | Selling that composite notifies the stock room for the toy, then for the bar. |
| `Composite.ToyAndBarScenario` | composite.php:88-91 | Building the composite with addChild and asking it gives that description and those updates. |

## Left out

- adapter.php, decorator.php and facade.php: their methods only echo fixed text or delegate one-to-one, so there is no state or decision to model.
- Echoed text and HTML: each is modelled as an abstract event (an `Action`, a `Search` call, a `Sold` update), not as output strings.
- `get_class` in the "attempting to handle" line: the trace records the node itself.
- The Chainable type hint on the Child constructor. Exception objects beyond their message: the throw is the `Unhandled` outcome.
- `Document`/`Internet` highlighting: it uses `str_replace` and `echo`. A search is an opaque recorded call.
- Whether a search raises is a parameter (`raising`) of `Notify`, `Type` and `Update`. The source's Document and Internet never raise, and the demonstration passes the empty set. The parameter lets the model state what the loop does when an update raises.
- Observable is an abstract class whose one subclass is the search text box. The model folds its observer list into `SearchTextBox`. Observers are mediators, the only class with an update method.
- `file_get_contents('block.jpg')` is file I/O: the image bytes are a parameter of `MakeBlock` and of the Block constructor. `memory_get_peak_usage()` is left out.
- Prices, `getPrice` and `buyThing` in composite.php: `ShopItem.getPrice` (composite.php:12-14) reads ShopItem's own private `$price`, which is never set, so it returns null for both leaves. The leaves' own private prices (10 for Toy, the float 0.5 for ChocolateBar) are never read, and the composite's `getPrice` returns nothing.
- Searchable objects are identified by their class (`Document` or `Internet`). Two distinct PHP objects of one class are the same value here, so `raising` cannot make one of them raise and not the other, and their calls look alike in a trace. The demonstration has one of each.
- Composite: nested children are values. If a composite is mutated after being added to another, PHP's shared reference would change the parent's description. The model does not capture that aliasing.
- Composite: PHP also lets a composite be added to itself or to one of its own descendants (`$comp->addChild($comp)`). `getDescription` and `notifyStockRoom` then recurse without end. Children are values here, so such a cycle cannot be built and the model does not express that non-termination.
- Memento: PHP accepts any value for a dimension. The model uses integers, with null (None) for a dimension never set.

# Verified models of the dongle SDK's executable logic

The headers of this SDK mostly declare functions whose bodies ship as libraries.
Three places hold logic that can be read: the copy of jQuery 1.7.1 that comes with
the HTML documentation (`doc/html/jquery.js`, minified, so one source line holds
many functions), the byte-order and bit-count macros of `bt_types.h`, and the list
macro of `usb_utils.h`. This project models them in Dafny and proves what they are
relied on for. `dafny verify dfyconfig.toml` checks everything.

## How it is built

**Callback lists** (`callback_spec`, `callback_runs`, `callback_laws`,
`callback_once`, `callback_meaning`, `callback_reach`, `callbacks`). The class
`Callbacks` keeps the fields the source keeps: list, queue, memory, firing flag,
start, length and index. On one list the firing loop never nests, so whenever it
calls a callback the object is simply suspended inside the call: user code may use
any method, any number of times, and then `Resume` says that the callback returned.
`view` is the index-free meaning of the fields (entries passed, entries to do,
queue, and the history of registrations, calls, passes and firings); every method is
proved to change it by the operation of `CallbackSpec` of the same name. The laws are
then proved over every sequence of operations. A list emptied or disabled while it
fires keeps the loop's place and bound (`lag`, `phantom`), and a loop that reads past
the end of the list is modelled as well (`Crashed`).

**Deferred and when** (`deferred*`, `when*`). A Deferred is three such lists; the
closures it registers on itself are run as soon as a list calls them. The join
keeps arrays, a counter and a master Deferred, and is driven by events in any
order, also while its setup loop is still running.

**Sizzle** (`dom`, `sizzle_walk`, `sizzle_select`, `sizzle_prune`, `sizzle_harvest`,
`sizzle_meaning`, `preorder`, `doc_order`, `nth_child`). Nodes are objects with the
links and the scratch properties that Sizzle follows and writes. The memoising walkers are proved against the plain search,
the greedy right-to-left passes against "some chain of ancestors matches" (sections
8.1 and 8.2 of Selectors Level 3), the comparator against pre-order of a tree defined
independently, and `:nth-child` against section 6.6.5.2 of Selectors Level 3.

**Events, fx queue, ajax** (`event_table`, `event_meaning`, `fx_queue`, `ajax*`). The
handler list with its `delegateCount` refines one list in order of registration; the queue with
its sentinel refines a plain first-in first-out queue; ajax calls are one object each,
share a counter, and are cut where user code can run.

**Macros** (`byte_order`, `streams`, `fields`, `bit_count`, `list_walk`).

The files named `*_meaning`, `callback_reach`, `deferred_progress` and `ajax_life` say
what the operations come to without their vocabulary: in terms of the arguments given,
the links between nodes, and the calls and events of a run.

## What turned out not to hold

- Ajax: a request that is finished after its last check and before it is sent
  (aborted from an ajaxSend handler, say, or from an ajaxStart handler when there is
  no beforeSend) is marked as sent all the same. `OnlyReopeningGoesBack` shows that
  this step, and no other, takes a finished request back or finishes it again;
  `CleanRuns` shows that without it finishers act once and the counter is right;
  `CountedOutTwice` and `BelowZero` show the counter going wrong with it;
  `CounterIsRight` says exactly when the counter is right. The signals do not suffer:
  ajaxStart and ajaxStop alternate in every run (`SignalsAlternate`).
- Event table: adding through a handler object that brings a selector of its own
  puts a delegated handler among the plain ones. `Handlers.Add` states exactly when
  the table stays well formed.
- Sizzle: the passes never backtrack, so with a child combinator to the left of a
  descendant one they can miss an element. They never select too much
  (`GreedyIsSound`), they are exact when descendant combinators come first
  (`GreedyIsExact`), and in general they drop an element that the selector means
  exactly if its ascent comes to a child combinator whose parent does not pass
  (`MissedWhenStuck`). `GreedyMisses` gives the trees where that happens for any chain
  in the wrong order, and `MissesChildOfAncestor` the instance "a > b c".
- Sizzle: the ">" pass takes it for granted that there is a parent, which in a
  detached tree there may not be. The passes treat every candidate on its own exactly
  if none comes to a child combinator without a parent (`PrunedAlone`), as in documents
  and for descendant combinators alone (`NobodyIsOrphan`). Otherwise a tag name throws
  (`DetachedThrows`), and a filter turns the candidate into null; `ThrowsExactly` says
  for every chain when the passes throw. If they do not, the loops stop at the first
  null: what is returned is what the selector means of the candidates ahead of the
  first orphan, less those that get stuck (`AheadOfOrphan`, `Select`), so never too much
  (`NeverTooMuch`), and a candidate that is meant is missing exactly if it gets stuck or
  stands behind an orphan (`MissingExactly`, `OrphanHidesNext`).
- Callback lists: `empty` inside a callback leaves the firing loop's place and bound
  where they were. If nothing is added before that callback returns, the loop reads
  past the end of the list exactly if callbacks were still to be called
  (`EmptiedThenReturns`); if something is added, as many newcomers as had been passed
  are never called in that pass, and the others are next (`EmptiedThenAdds`). A lone
  callback that empties its list does no harm, but what it adds then is not called
  (`LoneCallbackLosesNext`).
- Deferred: not every notification made before the decision is heard. One that waits
  for a progress callback to return is dropped when the Deferred is resolved or rejected
  meanwhile (`WaitingIsLost`), so a callback registered later is called with an earlier
  one. `HeardUntilDecision` says exactly which are heard, and `LatecomerHears` that late
  callbacks get the last one made if none was waiting.
- fx queue: dequeuing out of turn, and replacing or clearing the queue, break its
  discipline exactly if a step is in progress (`Queue.DequeueOutOfTurn`,
  `Queue.Replace`).

## Model

| member | source | states |
|---|---|---|
| CallbackList.Callbacks.Has | doc/html/jquery.js:44 | finds a function exactly if the list is live and holds it |
| CallbackList.Callbacks.Push | doc/html/jquery.js:44 | appends the functions among the arguments, nested arrays flattened, leaving out those a unique list already has |
| CallbackList.Callbacks.Add | doc/html/jquery.js:44 | newcomers join the current pass if one is on; with a remembered firing they alone are called with it; otherwise they wait |
| CallbackList.Callbacks.Remove | doc/html/jquery.js:44 | takes every occurrence out of what is passed and of what is to do, and the loop's place and bound follow, also when unique lists stop at the first match |
| CallbackList.Callbacks.Strike | doc/html/jquery.js:44 | removing one function while the list fires keeps index and length on the same entries |
| CallbackList.Callbacks.FireWith | doc/html/jquery.js:44 | starts a pass over all entries, queues the firing during a pass, or drops it for a list that fires once or is locked |
| CallbackList.Callbacks.Fire | doc/html/jquery.js:44 | the firing loop's head: memory, flags and indices for a pass over the entries to do |
| CallbackList.Callbacks.Loop | doc/html/jquery.js:44 | the loop's test calls exactly the next entry to do, ends the pass, or reads past the end of a list emptied meanwhile |
| CallbackList.Callbacks.Finish | doc/html/jquery.js:44 | after a pass, stopped or run out, the first queued firing begins, or a once list is cleared or disabled |
| CallbackList.Callbacks.Resume | doc/html/jquery.js:44 | when a callback returns the pass goes on behind it, or stops on false if the list is so made |
| CallbackList.Callbacks.Disable | doc/html/jquery.js:44 | nothing is left to call and nothing is let in any more |
| CallbackList.Callbacks.Lock | doc/html/jquery.js:44 | no further firing is let in; without a remembered firing the list is disabled |
| CallbackList.Callbacks.Empty | doc/html/jquery.js:44 | the list is live and without entries, also if it was disabled; a pass that is on keeps its index and its length, idle or firing |
| CallbackList.Callbacks.Fired | doc/html/jquery.js:44 | tells whether the list remembers having fired |
| CallbackRuns.RunKeeps | doc/html/jquery.js:44 | the invariant of lists holds after every run of operations, from inside callbacks or not |
| CallbackLaws.NothingSkipped | doc/html/jquery.js:44 | in every run: a pass that ended, was not stopped by false and whose list was not emptied or disabled meanwhile has called everything it was for that the list then held; in every pass each registration is called at most once, in registration order, with the pass's payload; the pass that is on has called what it has passed and nothing that is to do |
| CallbackLaws.PassesStep | doc/html/jquery.js:44 | one operation: a pass ends only when a callback returns, with the list's contents recorded, and counts as stopped exactly if false was returned to a list that stops on it, and as cleared exactly if the list was emptied or disabled in it; a replay is for the newcomers, any other pass for every entry |
| CallbackLaws.AdvanceContents | doc/html/jquery.js:44 | calling back, through any number of queued firings, takes nothing out of a list that may fire again |
| CallbackLaws.FiringsTakeTurns | doc/html/jquery.js:44 | in every run: passes never interleave; firings begin in the order they were let in, all of them by the time an unlocked list is idle; each begins with exactly one pass, for all entries; every call gets the payload of its pass's firing; without "memory" pass k is the k-th firing, and with it any other pass replays the last firing |
| CallbackLaws.UniqueStaysUnique | doc/html/jquery.js:44 | a unique list never holds a function twice, in any run |
| CallbackLaws.PlaceIsKnown | doc/html/jquery.js:44 | in every run the loop's place and bound are those of the list's entries, unless the list was emptied or disabled in the pass that is on |
| CallbackLaws.CrashesWhen | doc/html/jquery.js:44 | a returning callback makes the loop read past the end exactly if the list is live with nothing to do and the loop's bound is still ahead |
| CallbackLaws.EmptiedThenReturns | doc/html/jquery.js:44 | after empty in a callback of any reachable list, disabled or not, and no add before it returns: the loop reads past the end exactly if callbacks were still to be called, the list is live and false does not stop it |
| CallbackLaws.EmptiedThenAdds | doc/html/jquery.js:44 | if something is added first, the loop stays inside the list; as many newcomers as were passed are not called in that pass whatever follows, the others are next |
| CallbackLaws.LoneCallbackLosesNext | doc/html/jquery.js:44 | a lone callback that empties the list and adds g: g is not called in that firing; without the add nothing goes wrong |
| CallbackOnce.OnceMemoryLaw | doc/html/jquery.js:44 | for "once memory" lists the calls are a prefix of all functions added, all of them whenever the list has fired, is live and idle, and every call gets the first firing's payload |
| CallbackMeaning.FlattenOccurs | doc/html/jquery.js:44 | a function is offered to the list exactly if it occurs among the arguments of add, at any depth of nested arrays |
| CallbackMeaning.FlattenInPlace | doc/html/jquery.js:44 | an array stands for its items in its place, a function for itself, anything else for nothing |
| CallbackMeaning.AddInPlace | doc/html/jquery.js:44 | so adding an array among other arguments leaves the list as adding its items there does |
| CallbackMeaning.CollectFirsts | doc/html/jquery.js:44 | a unique list takes, in order, the first of each function that it does not hold already, and no other |
| CallbackMeaning.AddRegisters | doc/html/jquery.js:44 | a live list registers all it is offered, or those if it is unique, behind what it has |
| CallbackMeaning.AddContents | doc/html/jquery.js:44 | whether it is idle, firing or replaying, a list that may fire again then holds what it held and the newcomers behind it |
| CallbackMeaning.RemoveExactly | doc/html/jquery.js:44 | exactly the functions named by an argument itself, not those in arrays, are taken out, of what was called and of what is to do; the rest stays in order |
| CallbackMeaning.ReturnMeans | doc/html/jquery.js:44 | a returning callback is followed by the next one with the same payload; false, on a list made for that, ends the pass, which then calls nobody |
| CallbackMeaning.AddCallsNow | doc/html/jquery.js:44 | on an idle list that remembers a firing the first newcomer is called at once with it |
| CallbackMeaning.DisabledForGood | doc/html/jquery.js:44 | unless it is emptied, a disabled list never registers, calls or lets in anything again, whatever is done to it |
| CallbackMeaning.ShutForGood | doc/html/jquery.js:44 | a list that is locked or disabled lets no firing in ever again |
| CallbackMeaning.LockMeans | doc/html/jquery.js:44 | locking drops what is queued and keeps entries and a remembered firing; without one it disables the list |
| CallbackMeaning.EmptyMeans | doc/html/jquery.js:44 | emptying makes the list live and without entries and leaves what is remembered, open and queued |
| CallbackMeaning.EveryFiringRuns | doc/html/jquery.js:44 | in every run without disabling and locking a list that may fire again lets every firing in, and has begun all of them whenever it is idle |
| CallbackMeaning.FirstFiringOnly | doc/html/jquery.js:44 | in every such run a list that may fire once lets exactly the first firing in |
| CallbackMeaning.OnceIsOver | doc/html/jquery.js:44 | unless it is emptied by its user, a once list that has fired and is idle holds nothing, and is disabled if it has no firing to replay |
| CallbackMeaning.MemoryIsLastFiring | doc/html/jquery.js:44 | in every run a list that still takes firings in, or is live and was never emptied, remembers the firing begun last, or only that there was one if it has no memory or false stopped that pass |
| CallbackReach.EveryoneHears | doc/html/jquery.js:44 | in every run of a memory list that is only added to, fired and locked: once a firing's pass is over, everyone registered when it was let in has been called in it with its payload |
| CallbackReach.NewcomerHears | doc/html/jquery.js:44 | and who registers later, while it is idle, is called at once with the firing begun last, also after locking |
| DeferredObject.Deferred.constructor | doc/html/jquery.js:44 | three fresh lists, the first two beginning with the closures for their outcome |
| DeferredObject.Deferred.RunClosure | doc/html/jquery.js:44 | the three closures record the outcome, disable the rival list and lock progress, and hand back to the list that called them |
| DeferredObject.Deferred.RunClosures | doc/html/jquery.js:44 | a list goes on through the Deferred's own closures until it calls a user callback or stops |
| DeferredObject.Deferred.Register | doc/html/jquery.js:44 | done, fail and progress add to their list, which may call newcomers at once |
| DeferredObject.Deferred.FireWith | doc/html/jquery.js:44 | resolveWith, rejectWith and notifyWith fire their list |
| DeferredObject.Deferred.Resume | doc/html/jquery.js:44 | a list goes on behind the user callback that returned |
| DeferredRuns.FireSettles | doc/html/jquery.js:44 | settling a pending Deferred runs all three closures before any user callback |
| DeferredRuns.SettlesOnce | doc/html/jquery.js:44 | in every run the first resolve or reject decides outcome and payload, no user callback of the losing list ever runs, winners run in registration order and completely, progress callbacks see only earlier notifications, and isResolved and isRejected tell the outcome |
| DeferredProgress.HeardUntilDecision | doc/html/jquery.js:44 | in every run the notifications that callbacks hear are those made before the decision, in order, up to those still waiting behind a running callback when it fell |
| DeferredProgress.ProgressHears | doc/html/jquery.js:44 | each of them has one pass, over when the list is idle, in which everyone who had registered on progress before it was made is called with it |
| DeferredProgress.LatecomerHears | doc/html/jquery.js:44 | who registers on idle progress after anything was notified is called at once with the last notification heard, also after settling; that is the last one made if none was waiting when the decision fell |
| DeferredProgress.WaitingIsLost | doc/html/jquery.js:44 | from every run: a notification made while a progress callback runs is lost if the Deferred is resolved or rejected before that callback returns |
| WhenJoin.When.VisitNext | doc/html/jquery.js:44 | the setup loop counts down for a plain argument and waits for a promise |
| WhenJoin.When.OnResolve | doc/html/jquery.js:44 | stores the value of argument i, packed if there are several, and resolves the master when the count reaches zero |
| WhenJoin.When.OnReject | doc/html/jquery.js:44 | a rejected argument rejects the master with its payload |
| WhenJoin.When.OnNotify | doc/html/jquery.js:44 | progress of argument i is stored in its place and all places are notified |
| WhenJoin.When.FinishSetup | doc/html/jquery.js:44 | after the loop the master is resolved if nothing is waited for, which may be for the second time |
| WhenJoin.When.Register | doc/html/jquery.js:44 | callbacks can be registered on the result at any time |
| WhenJoin.When.Resume | doc/html/jquery.js:44 | a callback of the result returns |
| WhenSpec.CountStep | doc/html/jquery.js:44 | at every event the counter stays the number of unvisited arguments and unresolved visited promises |
| WhenSpec.JoinDecides | doc/html/jquery.js:44 | in every order of settling the count is that of the open arguments, the first settling of the master is a rejection exactly if some promise was rejected, with the first one's payload, and otherwise a resolution that comes only when all promises are resolved and at the latest when setup is done; in place i it has the plain argument, or the array of all values its promise resolved with if they were several, the value if it was one, and undefined for none |
| WhenSpec.JoinLaw | doc/html/jquery.js:44 | so the master's outcome and payload are those, whatever is fired on it later |
| WhenSpec.EventsTold | doc/html/jquery.js:44 | in every run what the join records of an argument is what it resolved or was rejected with, and the loop has visited as many as there were visits |
| WhenSpec.MayHappen | doc/html/jquery.js:44 | what can happen next, in terms of what has happened: a visited promise may settle once and notify at any time, the test comes once, after the loop |
| WhenSpec.NotesInPlace | doc/html/jquery.js:44 | in every run the notified values are, for every argument, what it notified with last, packed in an array if it was several values, and undefined if it has not |
| WhenSpec.NoteLaw | doc/html/jquery.js:44 | each notification of a visited argument before the master is settled makes the master notify once with those values; nothing else makes it notify |
| SizzleWalk.Sizzle.WalkByName | doc/html/jquery.js:51 | one walk ends at what the plain search finds, also when it stops at a marked node and reuses that entry's result, and its own marks are right for later walks |
| SizzleWalk.Sizzle.DirNodeCheck | doc/html/jquery.js:51 | every live entry becomes the nearest node along the direction with the tag name, or false |
| SizzleWalk.Sizzle.WalkByTest | doc/html/jquery.js:51 | the same for one walk with any other test or a given node |
| SizzleWalk.Sizzle.DirCheck | doc/html/jquery.js:51 | every live entry becomes the nearest element along the direction that passes, true where a given node is met, or false |
| SizzleWalk.Sizzle.Relative | doc/html/jquery.js:51 | the "" and "~" passes agree with the plain search for every check set, with a fresh pass number each |
| SizzleMeaning.WalkEndsRight | doc/html/jquery.js:51 | for every entry there is a way from link to link along the direction: it ends at the first node whose name or filter fits, or at the end of the links if none does |
| SizzleMeaning.ChainedHasWitnesses | doc/html/jquery.js:51 | if the selector means an element, there are nodes for all its parts, each fitting, each the parent or an ancestor of the next as the combinator demands, the top one an element below the context |
| SizzleMeaning.WitnessesMakeChained | doc/html/jquery.js:51 | and if there are such nodes, it does |
| SizzleSelect.NearestAncestor | doc/html/jquery.js:51 | the nearest passing ancestor passes and has every other passing ancestor above it |
| SizzleSelect.GreedyIsSound | doc/html/jquery.js:51 | for every chain of descendant and child combinators, an element the passes keep is one the selector means |
| SizzleSelect.GreedyIsExact | doc/html/jquery.js:51 | when no child combinator stands to the left of a descendant one, the passes keep an element exactly if some chain of ancestors matches and its top is within the context |
| SizzleSelect.MissedWhenStuck | doc/html/jquery.js:51 | for every chain and tree, an element the selector means is dropped exactly if its ascent comes to a child combinator whose parent does not pass |
| SizzleSelect.GreedyMisses | doc/html/jquery.js:51 | for every chain with a child combinator left of a descendant one: an element whose ascent leads to a node with a parent failing the child part, while a higher node would do for the rest, is meant by the selector and dropped |
| SizzleSelect.WrongOrderIsAdjacent | doc/html/jquery.js:51 | a chain that is not descendants first has such a pair of neighbouring parts |
| SizzleSelect.MissesChildOfAncestor | doc/html/jquery.js:51 | so "a > b c" misses an element in every tree of a given shape |
| SizzlePrune.ChildByName | doc/html/jquery.js:51 | the ">" pass for a tag name moves every live entry to its parent if that has the name, and throws exactly if some live entry has no parent |
| SizzlePrune.ChildByFilter | doc/html/jquery.js:51 | the ">" pass for a filter moves every live entry to its parent if that passes, up to the first entry without a parent; from there on the parents are left untested |
| SizzlePrune.Prune | doc/html/jquery.js:51 | the loop over the parts does these passes from the right, and throws exactly if one of them does |
| SizzlePrune.PrunedAlone | doc/html/jquery.js:51 | the passes leave every candidate's own ascent exactly if none comes to a child combinator without a parent, for all chains and candidate lists |
| SizzlePrune.AheadOfOrphan | doc/html/jquery.js:51 | unless the passes throw, every candidate ahead of the first orphan ends as its own ascent, and the orphan's entry is the first null |
| SizzlePrune.ThrowsExactly | doc/html/jquery.js:51 | for every chain and candidate list, the passes throw exactly if some candidate's way up, with filters no longer tested once an entry ahead of it is null, comes to a child combinator with a tag name at a node without a parent |
| SizzlePrune.NamesThrow | doc/html/jquery.js:51 | if all child combinators have tag names to their left, that is exactly if some candidate is an orphan |
| SizzlePrune.FiltersNeverThrow | doc/html/jquery.js:51 | if all have filters there, the passes never throw |
| SizzlePrune.NobodyIsOrphan | doc/html/jquery.js:51 | where every element has a parent, or all combinators are descendant ones, no candidate comes to a child combinator without a parent |
| SizzleHarvest.Harvest | doc/html/jquery.js:51 | the last loop keeps, in order, the candidates whose entry is an element within the context, and ends at the first null |
| SizzleHarvest.Select | doc/html/jquery.js:51 | returns nothing for a context that is neither document nor element, the candidates as they are without a combinator, and otherwise, unless the passes throw, exactly the candidates ahead of the first orphan that the selector means and that never get stuck, in order |
| SizzleHarvest.NeverTooMuch | doc/html/jquery.js:51 | for every chain, tree and candidate list, orphans or not, everything returned is meant by the selector; without a combinator, if the candidates were found within the context |
| SizzleHarvest.KeptExactly | doc/html/jquery.js:51 | an ascent is kept exactly if the selector means the candidate and it never gets stuck |
| SizzleHarvest.MissingExactly | doc/html/jquery.js:51 | of what is returned when nothing throws, a candidate that the selector means is missing exactly if it gets stuck or is not ahead of the first orphan |
| SizzleHarvest.UnspoiledIsExact | doc/html/jquery.js:51 | with descendant combinators first and no orphan, what is returned is exactly what the selector selects |
| SizzleMeaning.MeantInOrder | doc/html/jquery.js:51 | what is returned are the candidates that the selector means and that never get stuck, in order, each as often as it stands there |
| SizzleMeaning.ContextsAre | doc/html/jquery.js:51 | a context of node type 1 or 9 is searched; any other gives nothing |
| SizzleHarvest.OrphanHidesNext | doc/html/jquery.js:51 | ".a > .b > c" in a detached tree: one candidate without a parent makes the selector return nothing, although a candidate behind it is meant |
| SizzleHarvest.DetachedThrows | doc/html/jquery.js:51 | "a > b > c" throws in every detached tree whose root is a b with a c |
| Preorder.WalkIncreasing | doc/html/jquery.js:51 | the pre-order listing of a tree is strictly increasing in path order |
| Preorder.WalkComplete | doc/html/jquery.js:51 | the listing holds exactly the tree's nodes |
| DocOrder.SiblingCheck | doc/html/jquery.js:51 | the sibling scan tells which of two children of one node comes first, and gives the caller's answer for one and the same child |
| DocOrder.Ancestors | doc/html/jquery.js:51 | collects a node's ancestors from the root down |
| DocOrder.Compare | doc/html/jquery.js:51 | the comparator is negative, zero or positive exactly as the first node stands before, at or after the second, for any two nodes of one tree |
| DocOrder.OrderIsPosition | doc/html/jquery.js:51 | that order is the order of pre-order positions |
| Preorder.BeforeIsTotal | doc/html/jquery.js:51 | of two different nodes exactly one comes before the other |
| Preorder.BeforeTransitive | doc/html/jquery.js:51 | the order is transitive |
| DocOrder.UniqueSort | doc/html/jquery.js:51 | the splice loop leaves a strictly increasing list with the same nodes, whenever the comparator was given each two neighbours of the sorted list |
| NthChild.NumberChildren | doc/html/jquery.js:51 | gives every element child one plus the number of element siblings before it |
| NthChild.ElementsAreCounted | doc/html/jquery.js:51 | the count of element children is the size of the set of children of node type 1 |
| NthChild.IndexIsPosition | doc/html/jquery.js:51 | so the index of a child is one plus the number of siblings of node type 1 before it |
| NthChild.FormulaIsExact | doc/html/jquery.js:51 | the remainder and quotient test holds exactly if some n of at least zero gives the index, for all integers |
| NthChild.Nth | doc/html/jquery.js:51 | the filter accepts an element exactly if its index is a*n+b for some n of at least zero, with cached or new indices; without a parent only a left-over index counts |
| EventTable.Handlers.Add | doc/html/jquery.js:44 | the handler is added last of its kind; delegateCount still splits the list exactly if a selector was passed just when the handler has one |
| EventTable.Handlers.Remove | doc/html/jquery.js:44 | removes exactly the handlers that meet the criteria, in both parts, and keeps the split |
| EventTable.Handlers.LineUp | doc/html/jquery.js:44 | dispatch lines up, node by node up from the target, the matching delegated handlers in registration order, then all plain ones; for a disabled target or a click with another button only the plain ones |
| EventTable.Handlers.PickHandlers | doc/html/jquery.js:44 | for one node, the first delegateCount entries yield exactly the delegated handlers whose selector matches; the node is tested for each delegated selector once and for nothing else |
| EventMeaning.RemovalSpares | doc/html/jquery.js:44 | a handler stays exactly if its type, function, namespace or selector is not the one named; those that stay keep their order |
| EventMeaning.KindsApart | doc/html/jquery.js:44 | the two parts of the table are the handlers with and without a selector, each in order of registration |
| EventMeaning.PlanMeans | doc/html/jquery.js:44 | an event runs, node by node upwards, every handler with a selector that the node matches, unless the target is disabled or it is a click with another button than the left one, and then every handler without a selector |
| FxQueue.Queue.Dequeue | doc/html/jquery.js:44 | starts the first waiting step behind a sentinel, or removes the queue if none waits |
| FxQueue.Queue.Enqueue | doc/html/jquery.js:44 | a step is queued last, and starts at once exactly if none is in progress |
| FxQueue.Queue.Next | doc/html/jquery.js:44 | when a step is over the next one queued starts, so steps start in order, one at a time |
| FxQueue.Queue.Replace | doc/html/jquery.js:44 | an array, or clearing, replaces what waits, sentinel included; the first new step starts at once, and the discipline survives exactly if no step was in progress |
| FxQueue.Queue.DequeueOutOfTurn | doc/html/jquery.js:44 | a dequeue that no step asked for keeps the queue's discipline exactly if no step is in progress |
| FxQueue.Queue.StartsInOrder | doc/html/jquery.js:44 | the steps started are the first ones queued, in order, and all of them when none is in progress |
| Ajax.Requests.OpenRequest | doc/html/jquery.js:51 | a new request starts unsent and uncounted |
| Ajax.Requests.AfterPrefilters | doc/html/jquery.js:51 | a request aborted by a prefilter is never counted; others are counted if global, the first one signalling ajaxStart |
| Ajax.Requests.AfterBeforeSend | doc/html/jquery.js:51 | a request refused by beforeSend, or finished by then, is aborted; without beforeSend nothing is checked |
| Ajax.Requests.AfterTransports | doc/html/jquery.js:51 | without a transport the request is finished |
| Ajax.Requests.Send | doc/html/jquery.js:51 | only the request sent changes |
| Ajax.JqXhr.Send | doc/html/jquery.js:51 | the request is marked as sent whatever its state, and finished if sending throws or the transport is gone |
| Ajax.JqXhr.BeginFinish | doc/html/jquery.js:51 | the finisher takes effect only on a request not yet finished |
| Ajax.Requests.FinishRequest | doc/html/jquery.js:51 | abort, completion or timeout at any time |
| Ajax.Requests.EndFinish | doc/html/jquery.js:51 | a counted request is counted out, the last one signalling ajaxStop |
| AjaxSpec.LedgerRun | doc/html/jquery.js:51 | in every run of any number of requests the counter is the number counted in less the number counted out |
| AjaxSpec.CounterIsRight | doc/html/jquery.js:51 | in every run the counter never exceeds the number of requests counted in and not counted out, and is that number exactly if no counted request was counted out twice |
| AjaxSpec.CounterAtRest | doc/html/jquery.js:51 | with no finisher under way, exactly if no counted request's finisher took effect twice |
| AjaxSpec.SignalsAlternate | doc/html/jquery.js:51 | in every run ajaxStart and ajaxStop alternate, beginning with ajaxStart, and the last one is ajaxStart exactly while the counter is positive |
| AjaxSpec.OnlyReopeningGoesBack | doc/html/jquery.js:51 | a step takes no request's state back and finishes none again exactly if it is not the sending of a finished request |
| AjaxSpec.CleanRuns | doc/html/jquery.js:51 | without such a step every finisher takes effect at most once and the counter is the number of requests outstanding |
| AjaxSpec.CountedOutTwice | doc/html/jquery.js:51 | aborting a counted request from an ajaxSend handler counts it out twice, from every reachable state |
| AjaxSpec.BelowZero | doc/html/jquery.js:51 | a run of one request that leaves the counter at -1 |
| AjaxLife.FinishesExactly | doc/html/jquery.js:51 | an unfinished request is finished exactly by its finisher, by the refusal of its beforeSend, for want of a transport, or by a sending that throws or has lost its transport |
| AjaxLife.StaysFinished | doc/html/jquery.js:51 | a finished one stays so, and its finisher has no effect, except that its own sending may reopen it |
| AjaxLife.CountsExactly | doc/html/jquery.js:51 | the counter goes up exactly when a global, unaborted request has passed its prefilters and down exactly when the finisher of a counted one ends |
| AjaxLife.MayHappen | doc/html/jquery.js:51 | in every run a request may be finished at any time, and a call goes through prefilters, beforeSend, transports and sending in this order until it is over |
| AjaxLife.StoppedIsNeverSent | doc/html/jquery.js:51 | in every run a request finished by its prefilters, refused or found finished by the beforeSend check, or without a transport is finished then, and no transport is looked for and nothing sent afterwards |
| AjaxLife.DoomedIsNeverSent | doc/html/jquery.js:51 | a request finished ahead of such a check is never sent |
| AjaxLife.CanBeSent | doc/html/jquery.js:51 | conversely every other call that is not over can still be sent, and is then in state 1 unless it was finished just before sending |
| Streams.Stream.PutLE8 | inc/bluetooth/gap/bt_types.h:1113-1115 | writes the low byte and nothing else, and advances by one |
| Streams.Stream.PutBE8 | inc/bluetooth/gap/bt_types.h:1270-1272 | the same |
| Streams.Stream.GetLE8 | inc/bluetooth/gap/bt_types.h:1070-1073 | reads the next byte and advances by one |
| Streams.Stream.GetBE8 | inc/bluetooth/gap/bt_types.h:1227-1230 | the same |
| Streams.Stream.PutLE16 | inc/bluetooth/gap/bt_types.h:1118-1121 | writes the two low bytes, low first, and nothing else, and advances by two |
| Streams.Stream.PutLE24 | inc/bluetooth/gap/bt_types.h:1124-1128 | the same for three bytes |
| Streams.Stream.PutLE32 | inc/bluetooth/gap/bt_types.h:1131-1136 | the same for four bytes |
| Streams.Stream.PutLE64 | inc/bluetooth/gap/bt_types.h:1139-1148 | the same for eight bytes |
| Streams.Stream.PutBE16 | inc/bluetooth/gap/bt_types.h:1275-1278 | writes the two low bytes, high first, and nothing else, and advances by two |
| Streams.Stream.PutBE24 | inc/bluetooth/gap/bt_types.h:1281-1285 | the same for three bytes |
| Streams.Stream.PutBE32 | inc/bluetooth/gap/bt_types.h:1288-1293 | the same for four bytes |
| Streams.Stream.PutBE64 | inc/bluetooth/gap/bt_types.h:1296-1305 | the same for eight bytes |
| Streams.Stream.GetLE16 | inc/bluetooth/gap/bt_types.h:1076-1080 | reads the little-endian value of the next two bytes and advances by two |
| Streams.Stream.GetLE24 | inc/bluetooth/gap/bt_types.h:1083-1088 | the same for three bytes |
| Streams.Stream.GetLE32 | inc/bluetooth/gap/bt_types.h:1091-1097 | the same for four bytes |
| Streams.Stream.GetLE64 | inc/bluetooth/gap/bt_types.h:1100-1110 | the same for eight bytes |
| Streams.Stream.GetBE16 | inc/bluetooth/gap/bt_types.h:1233-1237 | reads the big-endian value of the next two bytes and advances by two |
| Streams.Stream.GetBE24 | inc/bluetooth/gap/bt_types.h:1240-1245 | the same for three bytes |
| Streams.Stream.GetBE32 | inc/bluetooth/gap/bt_types.h:1248-1254 | the same for four bytes |
| Streams.Stream.GetBE64 | inc/bluetooth/gap/bt_types.h:1257-1267 | the same for eight bytes |
| Streams.Stream.PutArray | inc/bluetooth/gap/bt_types.h:1061-1067 | copies the array to the stream in order and nothing else |
| Streams.Stream.GetArray | inc/bluetooth/gap/bt_types.h:1052-1058 | copies the next bytes to the array in order and leaves the rest of it |
| ByteOrder.LERoundTrip | inc/bluetooth/gap/bt_types.h:1070-1148 | reading back a little-endian number gives it modulo 256^n |
| ByteOrder.BERoundTrip | inc/bluetooth/gap/bt_types.h:1227-1305 | the same for big-endian numbers |
| ByteOrder.BEIsReverse | inc/bluetooth/gap/bt_types.h:1070-1305 | big-endian bytes are the little-endian ones reversed |
| ByteOrder.LEOfValue | inc/bluetooth/gap/bt_types.h:1070-1148 | writing back a number just read gives the same bytes |
| Fields.PutField | inc/bluetooth/gap/bt_types.h:1061-1305 | writes one field's encoding and nothing else |
| Fields.GetField | inc/bluetooth/gap/bt_types.h:1052-1267 | decodes one field from the next bytes |
| Fields.SwappedOrder | inc/bluetooth/gap/bt_types.h:1113-1305 | a big-endian field is encoded as the reverse of the little-endian one |
| Fields.EncodedBytes | inc/bluetooth/gap/bt_types.h:1061-1305 | byte i of a little-endian field is its value shifted right by i bytes, of a big-endian one the same from the other end; arrays stand as they are |
| Fields.PutAll | inc/bluetooth/gap/bt_types.h:1052-1305 | writing any list of fields puts exactly their encodings, one after the other, and touches nothing else |
| Fields.GetAll | inc/bluetooth/gap/bt_types.h:1052-1305 | reading any list of shapes decodes the bytes in turn and advances by their sizes |
| Fields.RoundTrip | inc/bluetooth/gap/bt_types.h:1052-1305 | reading what was written with the same shapes gives back every field, truncated to its width |
| Fields.WriteThenRead | inc/bluetooth/gap/bt_types.h:1052-1305 | the macros themselves on one buffer: fields written, the cursor set back and the same shapes read give every field truncated to its width, and only the encoding's bytes change |
| BitCount.ClearsLowest | inc/bluetooth/gap/bt_types.h:1037-1044 | x & (x - 1) is x without its lowest one bit, all other bits unchanged |
| BitCount.AndBits | inc/bluetooth/gap/bt_types.h:1037-1044 | the conjunction is taken bit by bit |
| BitCount.CountOnes | inc/bluetooth/gap/bt_types.h:1037-1044 | for an unsigned integer the loop ends with the number of one bits counted and the integer at 0; the counter at doc/html/jquery.js line 96 is the same loop |
| BitCount.CountOnesSigned | inc/bluetooth/gap/bt_types.h:1037-1044 | the same for signed integers of any width in two's complement: a negative one ends as 0 with all ones of its word counted |
| ListWalk.ForEach | inc/usb/usb_utils.h:32-34 | every item of the list is visited once and in order whatever the body does to the head and to items not still to come |

## Left out

- CallbackLaws.NothingSkipped: does not say which entries a pass calls after its list was emptied or disabled and refilled in it; `EmptiedThenAdds` does, up to the next callback.
- BitCount.CountOnesSigned: wraps around when one is subtracted from the least integer, as the script does; in C that overflow of the macro is undefined.
- ListWalk.ForEach: bodies that relink an item still to come, for which the macro promises nothing; queue insertion and deletion, whose code is not in the repository.
- SizzleHarvest.Select: chains with sibling combinators or that begin with a combinator; a document node that passes a filter, which is dropped at once and not at the next step.
- SizzleWalk.Sizzle.DirCheck: other filters are taken as fixed properties of a node; that `:nth-child` overwrites a parent's mark with a number of its own only costs a walk its shortcut.
- DocOrder.UniqueSort: the engine's sort, which is taken to have sorted the list by the comparator and to have compared each two neighbours of the result.
- DocOrder.Compare: nodes of different trees, where the source gives no consistent answer.
- WhenJoin.When.OnNotify: passes a snapshot of the values notified so far, where the source passes the array itself, so that a remembered or queued notification of the result can there show values notified later, even after the decision; `SettlesOnce` speaks of which notifications are passed on, not of later changes to that array.
- WhenJoin.When: `when` with fewer than two arguments, which makes no join.
- AjaxSpec: headers, content conversion, caching and timers; a finisher is an event whoever calls it.
- EventTable.Handlers.Remove: the namespace pattern is any test of the namespace; special event types and the binding to the browser are not modelled.
- EventTable.Handlers.LineUp: running the handlers, with stopPropagation.
- FxQueue.Queue: steps that call next before the dequeue that started them has returned, and queues other than "fx", which have no sentinel.
- Streams.Stream: the array variants of the macros, which do the same at a fixed place; overlapping source and destination arrays.
- Callbacks that throw, `then`, `always`, `pipe` and `promise`, which only combine the operations above.
- The `only`, `first` and `last` branches of the CHILD filter, selector parsing, `querySelectorAll`, DOM building, effects and everything that only draws.
- GAP, GATT, BIG, AoX, bonding, DFU, file system and audio headers: they declare functions without bodies.

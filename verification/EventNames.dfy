/** Names stay unique up to case: events of the organizer, and ticket categories of one event. */
module EventNames {
  import opened Prelude
  import opened EventModel
  import opened EventHandlers
  import opened EventRuns

  predicate CategoryNamesDiffer(cs: seq<Category>) {
    forall i, j :: 0 <= i < j < |cs| ==> Lower(cs[i].name) != Lower(cs[j].name)
  }

  predicate EventNamesDiffer(events: map<nat, EventState>) {
    forall a, b :: a in events && b in events && a != b ==> Lower(events[a].event.name) != Lower(events[b].event.name)
  }

  predicate NamesOk(c: Catalog) {
    EventNamesDiffer(c.events) && forall id :: id in c.events ==> CategoryNamesDiffer(c.events[id].categories)
  }

  lemma WithoutKeepsNames(cs: seq<Category>, i: nat)
    requires CategoryNamesDiffer(cs) && i < |cs|
    ensures CategoryNamesDiffer(Without(cs, i))
  {
    var ds := Without(cs, i);
    assert forall k :: 0 <= k < |ds| ==> ds[k] == cs[if k < i then k else k + 1];
  }

  lemma UpdateKeepsNames(cs: seq<Category>, i: nat, c: Category)
    requires CategoryNamesDiffer(cs) && i < |cs|
    requires c.name == cs[i].name || !CategoryNamed(Without(cs, i), c.name)
    ensures CategoryNamesDiffer(cs[i := c])
  {
    var ds := Without(cs, i);
    assert forall k :: 0 <= k < |cs| && k != i ==> cs[k] == ds[if k < i then k else k - 1];
  }

  lemma CreateKeepsNames(s: EventState, id: nat, name: string, price: nat, quota: nat)
    requires CategoryNamesDiffer(s.categories) && HandleCreateCategory(s, id, name, price, quota).Ok?
    ensures CategoryNamesDiffer(HandleCreateCategory(s, id, name, price, quota).value.state.categories)
  {
  }

  lemma PatchKeepsNames(s: EventState, id: nat, version: nat, p: CategoryPatch)
    requires CategoryNamesDiffer(s.categories) && HandlePatchCategory(s, id, version, p).Ok?
    ensures CategoryNamesDiffer(HandlePatchCategory(s, id, version, p).value.state.categories)
  {
    var i := IndexOf(s.categories, id);
    UpdateKeepsNames(s.categories, i, Changed(s.categories[i], p).(version := version + 1));
  }

  lemma SellKeepsNames(s: EventState, id: nat, quantity: nat)
    requires CategoryNamesDiffer(s.categories) && HandleSell(s, id, quantity).Ok?
    ensures CategoryNamesDiffer(HandleSell(s, id, quantity).value.state.categories)
  {
    var c := s.categories[IndexOf(s.categories, id)];
    UpdateKeepsNames(s.categories, IndexOf(s.categories, id), c.(sold := c.sold + quantity));
  }

  lemma HandleKeepsCategoryNames(s: EventState, r: Request)
    requires CategoryNamesDiffer(s.categories) && Handle(s, r).Ok?
    ensures CategoryNamesDiffer(Handle(s, r).value.state.categories)
  {
    match r
    case CreateCategory(id, name, price, quota) => CreateKeepsNames(s, id, name, price, quota);
    case PatchCategory(id, v, p) => PatchKeepsNames(s, id, v, p);
    case Sell(id, quantity) => SellKeepsNames(s, id, quantity);
    case DeleteCategory(id, _) => WithoutKeepsNames(s.categories, IndexOf(s.categories, id));
    case _ => OthersKeepCategories(s, r);
  }

  lemma OthersKeepCategories(s: EventState, r: Request)
    requires Handle(s, r).Ok? && !r.CreateCategory? && !r.PatchCategory? && !r.DeleteCategory? && !r.Sell?
    ensures Handle(s, r).value.state.categories == s.categories
  {
  }

  lemma OthersKeepName(s: EventState, r: Request)
    requires Handle(s, r).Ok? && !r.PatchEvent?
    ensures Handle(s, r).value.state.event.name == s.event.name
  {
  }

  lemma RenameKeepsNames(events: map<nat, EventState>, id: nat, s: EventState)
    requires EventNamesDiffer(events)
    requires !EventNamed(events, Some(id), s.event.name) || (id in events && s.event.name == events[id].event.name)
    ensures EventNamesDiffer(events[id := s])
  {
    assert forall other :: other in events && other != id ==>
        Lower(events[other].event.name) != Lower(s.event.name);
  }

  lemma StepKeepsNames(c: Catalog, a: Action)
    requires NamesOk(c)
    ensures NamesOk(Step(c, a))
  {
    match a
    case Create(id, p, earliest) =>
      if Step(c, a) != c {
        RenameKeepsNames(c.events, id, EventState(NewEvent(p), [], []));
      }
    case Delete(_, _) =>
    case On(id, r) =>
      if id in c.events && Respond(c.events, id, r).Ok? {
        HandleKeepsCategoryNames(c.events[id], r);
        if !r.PatchEvent? {
          OthersKeepName(c.events[id], r);
        }
        RenameKeepsNames(c.events, id, Handle(c.events[id], r).value.state);
      }
  }

  lemma {:induction false} RunKeepsNames(run: seq<Action>)
    ensures NamesOk(After(run))
  {
    if run == [] {
    } else {
      RunKeepsNames(run[..|run| - 1]);
      StepKeepsNames(After(run[..|run| - 1]), run[|run| - 1]);
    }
  }
}

/** The three-colour search that refuses reference cycles. */
module SchemaCycles {
  import opened Schemas

  datatype Mark = Visiting | Visited

  /** Every type comes after the types it refers to. */
  ghost predicate Ordered(definitions: Definitions, order: seq<string>) {
    forall i, to | 0 <= i < |order| && Edge(definitions, order[i], to) :: to in order[..i]
  }

  lemma OrderedGrows(definitions: Definitions, order: seq<string>, name: string)
    requires Ordered(definitions, order)
    requires forall to | Edge(definitions, name, to) :: to in order
    ensures Ordered(definitions, order + [name])
  {
    forall i, to | 0 <= i < |order + [name]| && Edge(definitions, (order + [name])[i], to)
      ensures to in (order + [name])[..i]
    {
      assert (order + [name])[..i] == order[..i];
      if i == |order| {
        assert order[..i] == order;
      }
    }
  }

  function IndexOf(order: seq<string>, name: string): (i: nat)
    ensures i <= |order| && (name in order ==> i < |order| && order[i] == name)
    ensures name !in order[..i]
  {
    if order == [] || order[0] == name then 0
    else
      var i := 1 + IndexOf(order[1..], name);
      assert order[..i] == [order[0]] + order[1..][..i - 1];
      i
  }

  lemma EdgeDescends(definitions: Definitions, order: seq<string>, from: string, to: string)
    requires Ordered(definitions, order) && from in order && Edge(definitions, from, to)
    ensures to in order && IndexOf(order, to) < IndexOf(order, from)
  {
    var i, j := IndexOf(order, from), IndexOf(order, to);
    assert to in order[..i];
    var k :| 0 <= k < i && order[k] == to;
  }

  lemma {:induction false} PathDescends(definitions: Definitions, order: seq<string>, path: seq<string>)
    requires Ordered(definitions, order) && IsPath(definitions, path) && path != [] && path[0] in order
    ensures path[|path| - 1] in order
    ensures IndexOf(order, path[|path| - 1]) + |path| - 1 <= IndexOf(order, path[0])
  {
    if |path| > 1 {
      EdgeDescends(definitions, order, path[0], path[1]);
      assert path[1..][0] == path[1];
      PathDescends(definitions, order, path[1..]);
    }
  }

  /** An order of all definitions rules every cycle out. */
  lemma OrderedIsAcyclic(definitions: Definitions, order: seq<string>)
    requires Ordered(definitions, order) && forall name | name in definitions :: name in order
    ensures Acyclic(definitions)
  {
    forall path
      ensures !IsCycle(definitions, path)
    {
      if IsCycle(definitions, path) {
        assert Edge(definitions, path[0], path[1]);
        PathDescends(definitions, order, path);
      }
    }
  }

  /** The types being visited form a path, and coming back to one closes a cycle. */
  lemma BackEdge(definitions: Definitions, stack: seq<string>, name: string) returns (cycle: seq<string>)
    requires IsPath(definitions, stack + [name]) && name in stack
    ensures IsCycle(definitions, cycle)
  {
    var k :| 0 <= k < |stack| && stack[k] == name;
    cycle := stack[k..] + [name];
    forall i | 0 <= i < |cycle| - 1
      ensures Edge(definitions, cycle[i], cycle[i + 1])
    {
      assert cycle[i] == (stack + [name])[k + i] && cycle[i + 1] == (stack + [name])[k + i + 1];
    }
  }

  lemma {:induction false} RefsOf(fields: seq<Field>, i: nat)
    requires i < |fields|
    ensures fields[i].ref != "" ==> fields[i].ref in Refs(fields)
    ensures fields[i].inline.Some? ==> Refs(fields[i].inline.value.fields) <= Refs(fields)
  {
    if i > 0 {
      RefsOf(fields[1..], i - 1);
    }
  }

  lemma {:induction false} RefsPrefix(fields: seq<Field>, i: nat)
    requires i < |fields|
    ensures Refs(fields[..i + 1]) == Refs(fields[..i]) + Refs([fields[i]])
  {
    if i == 0 {
      assert fields[..1] == [fields[0]] && fields[..0] == [];
    } else {
      RefsPrefix(fields[1..], i - 1);
      assert fields[..i + 1][1..] == fields[1..][..i] && fields[..i][1..] == fields[1..][..i - 1];
      assert fields[..i + 1][0] == fields[0] && fields[..i][0] == fields[0];
    }
  }

  lemma RefsOne(field: Field)
    ensures Refs([field]) ==
            (if field.ref != "" then {field.ref} else {})
            + (if field.inline.Some? then Refs(field.inline.value.fields) else {})
  {
    assert [field][1..] == [];
  }

  /** The names the search can meet. */
  ghost predicate Covered(definitions: Definitions, names: set<string>) {
    && (forall name | name in definitions :: name in names)
    && (forall from, to | Edge(definitions, from, to) :: to in names)
  }

  type Marks = map<string, Mark>

  /** The visited types are those in the order, the visiting ones those on the stack. */
  ghost predicate Coloured(states: Marks, names: set<string>, order: seq<string>, stack: seq<string>) {
    && states.Keys <= names
    && (forall name :: name in stack <==> name in states && states[name].Visiting?)
    && (forall name :: name in order <==> name in states && states[name].Visited?)
  }

  lemma Enter(states: Marks, names: set<string>, order: seq<string>, stack: seq<string>, name: string)
    requires Coloured(states, names, order, stack) && name !in states && name in names
    ensures Coloured(states[name := Visiting], names, order, stack + [name])
  {
  }

  lemma Leave(states: Marks, names: set<string>, order: seq<string>, stack: seq<string>, name: string)
    requires Coloured(states, names, order, stack + [name]) && name !in stack
    ensures Coloured(states[name := Visited], names, order + [name], stack)
  {
    assert name in stack + [name];
    forall other
      ensures other in stack <==> other in states[name := Visited] && states[name := Visited][other].Visiting?
    {
      assert other in stack + [name] <==> other in stack || other == name;
    }
  }

  class CycleSearch {
    const definitions: Definitions
    ghost const names: set<string>
    var states: Marks
    /** The types in the order in which their visits ended. */
    ghost var order: seq<string>

    constructor (definitions: Definitions, ghost names: set<string>)
      ensures this.definitions == definitions && this.names == names && states == map[] && order == []
    {
      this.definitions := definitions;
      this.names := names;
      states := map[];
      order := [];
    }

    ghost predicate Searching(stack: seq<string>)
      reads this
    {
      && Covered(definitions, names) && Ordered(definitions, order)
      && IsPath(definitions, stack) && Coloured(states, names, order, stack)
    }

    method VisitDefinition(name: string, ghost stack: seq<string>) returns (ok: bool, ghost cycle: seq<string>)
      requires Searching(stack) && IsPath(definitions, stack + [name]) && name in names
      modifies this
      ensures !ok ==> IsCycle(definitions, cycle)
      ensures ok ==> Searching(stack) && name in order && old(order) <= order && old(states.Keys) <= states.Keys
      decreases names - states.Keys, 0
    {
      cycle := [];
      if name in states {
        if states[name].Visiting? {
          cycle := BackEdge(definitions, stack, name);
        }
        return states[name].Visited?, cycle;
      }
      Enter(states, names, order, stack, name);
      states := states[name := Visiting];
      assert name in names - old(states.Keys) && name !in names - states.Keys;
      ok, cycle := VisitFields(DefinitionOf(definitions, name).fields, stack, name);
      if !ok { return; }
      Leave(states, names, order, stack, name);
      states := states[name := Visited];
      OrderedGrows(definitions, order, name);
      order := order + [name];
      assert name in order;
    }

    method VisitFields(fields: seq<Field>, ghost stack: seq<string>, ghost name: string)
      returns (ok: bool, ghost cycle: seq<string>)
      requires Searching(stack + [name]) && Refs(fields) <= Refs(DefinitionOf(definitions, name).fields)
      modifies this
      ensures !ok ==> IsCycle(definitions, cycle)
      ensures ok ==> Searching(stack + [name]) && old(order) <= order && old(states.Keys) <= states.Keys
      ensures ok ==> forall to | to in Refs(fields) :: to in order
      decreases names - states.Keys, 2, fields
    {
      cycle := [];
      var i := 0;
      while i < |fields|
        invariant i <= |fields|
        invariant Searching(stack + [name]) && old(order) <= order && old(states.Keys) <= states.Keys
        invariant forall to | to in Refs(fields[..i]) :: to in order
      {
        RefsOf(fields, i);
        RefsPrefix(fields, i);
        RefsOne(fields[i]);
        ok, cycle := VisitField(fields[i], stack, name);
        if !ok { return; }
        i := i + 1;
      }
      assert fields[..i] == fields;
      ok := true;
    }

    method VisitField(field: Field, ghost stack: seq<string>, ghost name: string)
      returns (ok: bool, ghost cycle: seq<string>)
      requires Searching(stack + [name]) && Refs([field]) <= Refs(DefinitionOf(definitions, name).fields)
      modifies this
      ensures !ok ==> IsCycle(definitions, cycle)
      ensures ok ==> Searching(stack + [name]) && old(order) <= order && old(states.Keys) <= states.Keys
      ensures ok ==> forall to | to in Refs([field]) :: to in order
      decreases names - states.Keys, 2, field
    {
      RefsOne(field);
      ok, cycle := true, [];
      if field.ref != "" {
        assert Edge(definitions, name, field.ref);
        StepOn(definitions, stack, name, field.ref);
        ok, cycle := VisitDefinition(field.ref, stack + [name]);
        if !ok { return; }
      }
      if field.inline.Some? {
        ok, cycle := VisitFields(field.inline.value.fields, stack, name);
      }
    }
  }

  lemma StepOn(definitions: Definitions, stack: seq<string>, name: string, to: string)
    requires IsPath(definitions, stack + [name]) && Edge(definitions, name, to)
    ensures IsPath(definitions, stack + [name] + [to])
  {
  }

  ghost function AllNames(definitions: Definitions): set<string> {
    definitions.Keys + (set from, to | from in definitions && to in Refs(definitions[from].fields) :: to)
  }

  lemma AllNamesCover(definitions: Definitions)
    ensures Covered(definitions, AllNames(definitions))
  {
    forall from, to | Edge(definitions, from, to)
      ensures to in AllNames(definitions)
    {
      assert from in definitions;
    }
  }

  /** Succeeds exactly on the acyclic definitions, in whatever order the map is
      ranged over. */
  method ValidateReferenceCycles(definitions: Definitions) returns (ok: bool, ghost order: seq<string>)
    ensures ok <==> Acyclic(definitions)
    ensures ok ==> Ordered(definitions, order) && forall name | name in definitions :: name in order
  {
    AllNamesCover(definitions);
    var search := new CycleSearch(definitions, AllNames(definitions));
    var rest := definitions.Keys;
    while rest != {}
      invariant rest <= definitions.Keys && search.definitions == definitions && search.Searching([])
      invariant forall name | name in definitions && name !in rest :: name in search.order
      decreases rest
    {
      var name :| name in rest;
      rest := rest - {name};
      ghost var cycle;
      assert name in search.names;
      ok, cycle := search.VisitDefinition(name, []);
      if !ok { return false, []; }
    }
    order := search.order;
    ok := true;
    OrderedIsAcyclic(definitions, order);
  }
}

/** The filter registry of groklog/filter_manager/filter_manager.py.

    A registry maps filter names to filters, remembers the order in which
    names were registered (a Python dict iterates in insertion order), and
    starts out holding the root filter "Shell" that runs the shell.

    A filter is identified by its name: the parent of a filter and the
    children of a filter are recorded as names, and the parent handed to
    `create_filter` is the registered filter of that name.

    The registry as written cannot be built at all (see `InitAsWritten`);
    `Init` and `CreateFilter` model the registry that the tests describe. */
module FilterManager {
  import opened Exceptions
  import opened ProcessNode

  /** The name of the root filter, the one that runs the shell. */
  const ROOT_FILTER_NAME: string := "Shell"

  /** A registered filter: name, shell command, parent, process node, and
      the names of the filters created under it, in creation order. */
  datatype Filter = Filter(
    name: string,
    command: string,
    parent: Option<string>,
    processNode: Option<NodeRef>,
    children: seq<string>)

  /** The registry: the names in registration order and the filters. */
  datatype Manager = Manager(order: seq<string>, filters: map<string, Filter>)

  /** The invariant every registry keeps: the root comes first, each name is
      registered once, the order lists exactly the registered names, and each
      filter is registered under its own name. */
  predicate Valid(m: Manager) {
    && |m.order| > 0 && m.order[0] == ROOT_FILTER_NAME
    && (forall i, j :: 0 <= i < j < |m.order| ==> m.order[i] != m.order[j])
    && (forall k :: k in m.filters ==> k in m.order)
    && (forall i :: 0 <= i < |m.order| ==> m.order[i] in m.filters)
    && (forall k :: k in m.filters ==> m.filters[k].name == k)
  }

  /** `FilterManager.__init__`: only the root filter, with an empty command,
      no parent and the shell as its process node. */
  function Init(shell: NodeRef): (m: Manager)
    ensures Valid(m)
    ensures m.order == [ROOT_FILTER_NAME] && m.filters.Keys == {ROOT_FILTER_NAME}
    ensures m.filters[ROOT_FILTER_NAME].command == ""
    ensures m.filters[ROOT_FILTER_NAME].processNode == Some(shell)
    ensures m.filters[ROOT_FILTER_NAME].parent.None? && m.filters[ROOT_FILTER_NAME].children == []
  {
    var root := Filter(ROOT_FILTER_NAME, "", None, Some(shell), []);
    Manager([ROOT_FILTER_NAME], map[ROOT_FILTER_NAME := root])
  }

  /** `__iter__`: the registered filters in registration order. */
  function Iterate(m: Manager): (fs: seq<Filter>)
    requires Valid(m)
    ensures |fs| == |m.order|
    ensures forall i :: 0 <= i < |fs| ==> fs[i] == m.filters[m.order[i]] && fs[i].name == m.order[i]
    ensures fs[0].name == ROOT_FILTER_NAME
  {
    seq(|m.order|, i requires 0 <= i < |m.order| => m.filters[m.order[i]])
  }

  /** `get_filter`: the filter registered under the name, or
      FilterNotFoundError. */
  function GetFilter(m: Manager, name: string): (r: Result<Filter>)
    ensures r.Ok? <==> name in m.filters
    ensures r.Ok? ==> r.value == m.filters[name]
    ensures r.Err? ==> r.error == FilterNotFoundError && IsFilterError(r.error)
  {
    if name in m.filters then Ok(m.filters[name]) else Err(FilterNotFoundError)
  }

  /** `root_filter`: the filter named "Shell", which a valid registry always
      has, and which iteration yields first. */
  function RootFilter(m: Manager): (r: Result<Filter>)
    ensures Valid(m) ==> r.Ok? && r.value.name == ROOT_FILTER_NAME
    ensures Valid(m) ==> r.value == Iterate(m)[0]
  {
    GetFilter(m, ROOT_FILTER_NAME)
  }

  /** A new filter together with the registry it was registered in. */
  datatype Created = Created(manager: Manager, filter: Filter)

  /** Appends `name` to the children of the filter registered as `parent`,
      if there is one; every other entry is left alone. */
  function AppendChild(filters: map<string, Filter>, parent: string, name: string): (r: map<string, Filter>)
    ensures r.Keys == filters.Keys
    ensures forall k :: k in filters ==> r[k].name == filters[k].name
    ensures forall k :: k in filters && k != parent ==> r[k] == filters[k]
    ensures parent in filters ==> r[parent] == filters[parent].(children := filters[parent].children + [name])
  {
    if parent in filters
    then filters[parent := filters[parent].(children := filters[parent].children + [name])]
    else filters
  }

  /** `create_filter`: a name already registered raises DuplicateFilterError
      and nothing changes; otherwise a filter with the given name, command,
      parent and process node is registered last, and its name is appended
      to its parent's children. A parent that is not registered is not part
      of the registry, so only the new entry is visible in it. */
  function CreateFilter(m: Manager, name: string, command: string, parent: Filter, node: Option<NodeRef>): (r: Result<Created>)
    ensures r.Err? <==> name in m.filters
    ensures r.Err? ==> r.error == DuplicateFilterError
    ensures r.Ok? ==> r.value.filter == Filter(name, command, Some(parent.name), node, [])
    ensures r.Ok? ==> r.value.manager.filters.Keys == m.filters.Keys + {name}
    ensures r.Ok? ==> r.value.manager.order == m.order + [name]
    ensures r.Ok? ==> r.value.manager.filters[name] == r.value.filter
    ensures r.Ok? ==> forall k :: k in m.filters && k != parent.name ==>
                        r.value.manager.filters[k] == m.filters[k]
    ensures r.Ok? && parent.name in m.filters ==>
              r.value.manager.filters[parent.name]
              == m.filters[parent.name].(children := m.filters[parent.name].children + [name])
    ensures r.Ok? && Valid(m) ==> Valid(r.value.manager)
  {
    if name in m.filters then Err(DuplicateFilterError)
    else
      var filter := Filter(name, command, Some(parent.name), node, []);
      var m' := Manager(m.order + [name], AppendChild(m.filters, parent.name, name)[name := filter]);
      assert Valid(m) ==> Valid(m') by {
        if Valid(m) {
          assert forall i, j :: 0 <= i < j < |m'.order| ==> m'.order[i] != m'.order[j] by {
            forall i, j | 0 <= i < j < |m'.order| ensures m'.order[i] != m'.order[j] {
              if j == |m.order| {
                assert m.order[i] in m.filters;
              }
            }
          }
          assert forall i :: 0 <= i < |m'.order| ==> m'.order[i] in m'.filters;
        }
      }
      Ok(Created(m', filter))
  }

  /** The new filter can be looked up by its name, the registry has grown by
      exactly one entry, and a second creation under that name is refused. */
  lemma CreatedFilterIsRegistered(m: Manager, name: string, command: string, parent: Filter, node: Option<NodeRef>)
    requires CreateFilter(m, name, command, parent, node).Ok?
    ensures var c := CreateFilter(m, name, command, parent, node).value;
            && GetFilter(c.manager, name) == Ok(c.filter)
            && |c.manager.filters| == |m.filters| + 1
            && forall cmd, p, nd :: CreateFilter(c.manager, name, cmd, p, nd) == Err(DuplicateFilterError)
  {
    var c := CreateFilter(m, name, command, parent, node).value;
    assert c.manager.filters.Keys == m.filters.Keys + {name};
    assert |c.manager.filters.Keys| == |m.filters.Keys| + 1;
  }

  /** A request to create a filter under the registered parent named `parent`. */
  datatype Request = Request(name: string, command: string, parent: string)

  /** One request: look the parent up, then create the filter under it. */
  function CreateStep(m: Manager, req: Request): (r: Result<Manager>)
    ensures r.Ok? ==> r.value.order == m.order + [req.name]
    ensures r.Ok? && Valid(m) ==> Valid(r.value)
    ensures r.Ok? && req.parent in m.filters && m.filters[req.parent].name == req.parent ==>
              && req.parent in r.value.filters
              && r.value.filters[req.parent].name == req.parent
              && r.value.filters[req.parent].children == m.filters[req.parent].children + [req.name]
  {
    match GetFilter(m, req.parent)
    case Err(e) => Err(e)
    case Ok(parent) =>
      match CreateFilter(m, req.name, req.command, parent, None)
      case Err(e) => Err(e)
      case Ok(c) => Ok(c.manager)
  }

  /** Creating filters one after another; the first failure is the result. */
  function CreateMany(m: Manager, reqs: seq<Request>): Result<Manager>
    decreases |reqs|
  {
    if reqs == [] then Ok(m)
    else
      match CreateStep(m, reqs[0])
      case Err(e) => Err(e)
      case Ok(m') => CreateMany(m', reqs[1..])
  }

  /** The names of the requested filters, in order. */
  function Names(reqs: seq<Request>): (names: seq<string>)
    ensures |names| == |reqs|
  {
    if reqs == [] then [] else [reqs[0].name] + Names(reqs[1..])
  }

  lemma SnocThenAppend(a: seq<string>, x: string, b: seq<string>)
    ensures a + ([x] + b) == (a + [x]) + b
  {
  }

  /** Creating filters keeps the registry valid. */
  lemma {:induction false} CreateManyKeepsValid(m: Manager, reqs: seq<Request>)
    decreases |reqs|
    requires Valid(m) && CreateMany(m, reqs).Ok?
    ensures Valid(CreateMany(m, reqs).value)
  {
    if reqs != [] {
      CreateManyKeepsValid(CreateStep(m, reqs[0]).value, reqs[1..]);
    }
  }

  /** Iteration yields the filters in creation order: whatever was there,
      then each created filter in turn. */
  lemma {:induction false} CreateManyIteratesInOrder(m: Manager, reqs: seq<Request>)
    decreases |reqs|
    requires CreateMany(m, reqs).Ok?
    ensures CreateMany(m, reqs).value.order == m.order + Names(reqs)
  {
    if reqs != [] {
      var m' := CreateStep(m, reqs[0]).value;
      CreateManyIteratesInOrder(m', reqs[1..]);
      assert Names(reqs) == [reqs[0].name] + Names(reqs[1..]);
      SnocThenAppend(m.order, reqs[0].name, Names(reqs[1..]));
    }
  }

  /** Filters created under a parent are appended to its children in
      creation order. */
  lemma {:induction false} CreateManyAppendsChildren(m: Manager, reqs: seq<Request>, p: string)
    decreases |reqs|
    requires CreateMany(m, reqs).Ok? && p in m.filters && m.filters[p].name == p
    requires forall i :: 0 <= i < |reqs| ==> reqs[i].parent == p
    ensures p in CreateMany(m, reqs).value.filters
    ensures CreateMany(m, reqs).value.filters[p].children == m.filters[p].children + Names(reqs)
  {
    if reqs != [] {
      var m' := CreateStep(m, reqs[0]).value;
      var rest := reqs[1..];
      var kids := m.filters[p].children;
      assert CreateMany(m, reqs) == CreateMany(m', rest);
      assert p in m'.filters && m'.filters[p].name == p && m'.filters[p].children == kids + [reqs[0].name] by {
        assert reqs[0].parent == p;
      }
      assert forall i :: 0 <= i < |rest| ==> rest[i].parent == p by {
        forall i | 0 <= i < |rest| ensures rest[i].parent == p {
          assert rest[i] == reqs[i + 1];
        }
      }
      CreateManyAppendsChildren(m', rest, p);
      assert Names(reqs) == [reqs[0].name] + Names(rest);
      SnocThenAppend(kids, reqs[0].name, Names(rest));
    }
  }

  /** The tests' scenario: after creating filters under the root of a fresh
      registry, iteration yields the root and then the new filters, and the
      root's children are the new filters. */
  lemma FreshRegistryScenario(shell: NodeRef, reqs: seq<Request>)
    requires forall i :: 0 <= i < |reqs| ==> reqs[i].parent == ROOT_FILTER_NAME
    ensures CreateMany(Init(shell), reqs).Ok? ==>
              var m := CreateMany(Init(shell), reqs).value;
              && Valid(m)
              && m.order == [ROOT_FILTER_NAME] + Names(reqs)
              && RootFilter(m).value.children == Names(reqs)
  {
    if CreateMany(Init(shell), reqs).Ok? {
      CreateManyKeepsValid(Init(shell), reqs);
      CreateManyIteratesInOrder(Init(shell), reqs);
      CreateManyAppendsChildren(Init(shell), reqs, ROOT_FILTER_NAME);
    }
  }

  // The registry as written.

  /** The fields the `Filter` dataclass declares; none has a default. */
  datatype Field = NameField | CommandField | ParentField | ProcessNodeField

  const DeclaredFields: set<Field> := {NameField, CommandField, ParentField, ProcessNodeField}

  /** The fields `filter_manager.py` passes when it builds a `Filter`. */
  const PassedFields: set<Field> := {NameField, CommandField, ProcessNodeField}

  /** The dataclass constructor called with keyword arguments for `given`:
      a declared field left without an argument is a TypeError. */
  function ConstructFilter(given: set<Field>, name: string, command: string, parent: Option<string>, node: Option<NodeRef>): (r: Result<Filter>)
    ensures r.Ok? <==> DeclaredFields <= given
    ensures r.Err? ==> r.error == MissingFieldError
    ensures r.Ok? ==> r.value.name == name && r.value.command == command && r.value.processNode == node
  {
    if DeclaredFields <= given then Ok(Filter(name, command, parent, node, []))
    else Err(MissingFieldError)
  }

  /** `FilterManager.__init__` as written: the root is built without its
      `parent` argument. */
  function InitAsWritten(shell: NodeRef): (r: Result<Manager>)
    ensures r.Err? && r.error == MissingFieldError
  {
    match ConstructFilter(PassedFields, ROOT_FILTER_NAME, "", None, Some(shell))
    case Err(e) => Err(e)
    case Ok(root) => Ok(Manager([ROOT_FILTER_NAME], map[ROOT_FILTER_NAME := root]))
  }

  /** `create_filter` as written: the duplicate check, then a `Filter` built
      without its `parent` argument. */
  function CreateFilterAsWritten(m: Manager, name: string, command: string, parent: Filter, node: Option<NodeRef>): (r: Result<Created>)
    ensures r.Err?
    ensures name in m.filters ==> r.error == DuplicateFilterError
    ensures name !in m.filters ==> r.error == MissingFieldError
  {
    if name in m.filters then Err(DuplicateFilterError)
    else
      match ConstructFilter(PassedFields, name, command, None, node)
      case Err(e) => Err(e)
      case Ok(filter) => Ok(Created(Manager(m.order + [name], m.filters[name := filter]), filter))
  }

  /** As written, no registry can be constructed, and no filter can ever be
      created in one: every call raises. */
  lemma AsWrittenNothingIsRegistered(shell: NodeRef, m: Manager, name: string, command: string, parent: Filter, node: Option<NodeRef>)
    ensures InitAsWritten(shell) == Err(MissingFieldError)
    ensures CreateFilterAsWritten(m, name, command, parent, node).Err?
    ensures name !in m.filters ==> CreateFilterAsWritten(m, name, command, parent, node) == Err(MissingFieldError)
    ensures name !in m.filters ==> CreateFilter(m, name, command, parent, node).Ok?
  {
    assert ParentField !in PassedFields;
  }
}

/** The older filter registry of groklog/filter_model/filter_model.py.

    A map from filter names to filters. A filter without a parent must run
    the shell; that rule is checked before the name is. The registry starts
    by creating its root filter "Shell" through the same path. */
module FilterModel {
  import opened Exceptions
  import opened ProcessNode

  /** The name of the root filter, the one that runs the shell. */
  const ROOT_FILTER_NAME: string := "Shell"

  /** A filter: name, shell command, the parent filter itself (none for a
      root) and the process node, if one was given. */
  datatype Filter = Filter(
    filterName: string,
    filterCommand: string,
    parent: Option<Filter>,
    processNode: Option<NodeRef>)

  datatype Model = Model(filters: map<string, Filter>)

  /** A process node argument that is a `ShellProcessIO`. */
  predicate IsShell(node: Option<NodeRef>) {
    node.Some? && node.value.ShellRef?
  }

  /** Every registry holds the root, and each filter under its own name. */
  predicate Valid(m: Model) {
    && ROOT_FILTER_NAME in m.filters
    && forall k :: k in m.filters ==> m.filters[k].filterName == k
  }

  /** A new filter together with the registry it was registered in. */
  datatype Created = Created(model: Model, filter: Filter)

  /** `create_filter`: a parentless filter whose node is not a shell raises
      the RuntimeError; then a registered name raises DuplicateFilterError;
      otherwise the filter is registered under its name and returned. */
  function CreateFilter(m: Model, name: string, command: string, parent: Option<Filter>, node: Option<NodeRef>): (r: Result<Created>)
    ensures r.Err? <==> (parent.None? && !IsShell(node)) || name in m.filters
    ensures r.Err? && parent.None? && !IsShell(node) ==> r.error == RootNotShellError
    ensures r.Err? && (parent.Some? || IsShell(node)) ==> r.error == DuplicateFilterError
    ensures r.Ok? ==> r.value.filter == Filter(name, command, parent, node)
    ensures r.Ok? ==> r.value.model.filters == m.filters[name := r.value.filter]
    ensures r.Ok? && Valid(m) ==> Valid(r.value.model)
  {
    if parent.None? && !IsShell(node) then Err(RootNotShellError)
    else if name in m.filters then Err(DuplicateFilterError)
    else
      var filter := Filter(name, command, parent, node);
      Ok(Created(Model(m.filters[name := filter]), filter))
  }

  /** `FilterModel.__init__`: the root "Shell" with an empty command, no
      parent and the given node; a node that is not a shell is refused. */
  function Init(shell: NodeRef): (r: Result<Model>)
    ensures r.Ok? <==> shell.ShellRef?
    ensures r.Err? ==> r.error == RootNotShellError
    ensures r.Ok? ==> Valid(r.value) && r.value.filters.Keys == {ROOT_FILTER_NAME}
    ensures r.Ok? ==> r.value.filters[ROOT_FILTER_NAME] == Filter(ROOT_FILTER_NAME, "", None, Some(shell))
  {
    match CreateFilter(Model(map[]), ROOT_FILTER_NAME, "", None, Some(shell))
    case Err(e) => Err(e)
    case Ok(c) => Ok(c.model)
  }

  /** `get_filter`: the filter registered under the name, or
      FilterNotFoundError. */
  function GetFilter(m: Model, name: string): (r: Result<Filter>)
    ensures r.Ok? <==> name in m.filters
    ensures r.Ok? ==> r.value == m.filters[name]
    ensures r.Err? ==> r.error == FilterNotFoundError && IsFilterError(r.error)
  {
    if name in m.filters then Ok(m.filters[name]) else Err(FilterNotFoundError)
  }

  /** `root_filter`: in a valid registry, the root filter named "Shell". */
  function RootFilter(m: Model): (r: Result<Filter>)
    ensures Valid(m) ==> r.Ok? && r.value.filterName == ROOT_FILTER_NAME
    ensures r.Ok? <==> ROOT_FILTER_NAME in m.filters
    ensures r.Ok? ==> r.value == m.filters[ROOT_FILTER_NAME]
  {
    GetFilter(m, ROOT_FILTER_NAME)
  }

  /** A created filter can be looked up by name and leaves every other
      entry alone; creating it again under any valid parent is refused as a
      duplicate, while the shell rule still takes precedence. */
  lemma CreatedFilterIsRegistered(m: Model, name: string, command: string, parent: Option<Filter>, node: Option<NodeRef>)
    requires CreateFilter(m, name, command, parent, node).Ok?
    ensures var c := CreateFilter(m, name, command, parent, node).value;
            && GetFilter(c.model, name) == Ok(c.filter)
            && (forall k :: k != name ==> GetFilter(c.model, k) == GetFilter(m, k))
            && (forall cmd, p, nd :: CreateFilter(c.model, name, cmd, p, nd).Err?)
            && (forall cmd, nd :: !IsShell(nd) ==> CreateFilter(c.model, name, cmd, None, nd) == Err(RootNotShellError))
  {
  }

  /** A registry built from a shell, then a filter created under its root:
      both are found, and the new filter's parent is the root. */
  lemma RootThenChild(shell: NodeRef, name: string, command: string, node: Option<NodeRef>)
    requires shell.ShellRef? && name != ROOT_FILTER_NAME
    ensures var m := Init(shell).value;
            var root := RootFilter(m).value;
            var r := CreateFilter(m, name, command, Some(root), node);
            && r.Ok?
            && r.value.filter.parent == Some(Filter(ROOT_FILTER_NAME, "", None, Some(shell)))
            && RootFilter(r.value.model) == RootFilter(m)
            && GetFilter(r.value.model, name) == Ok(r.value.filter)
  {
  }
}

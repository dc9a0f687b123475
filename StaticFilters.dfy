/**
 * A filter whose local and remote parts never change (`StaticFilter`): the
 * local select falls back to the remote filter's select, and a listener is
 * told once, at once, that the filter is ready.
 */
module StaticFilters {
  import opened Common
  import opened Query
  import opened Filters

  /** A `FilterListener` that counts the `filterChanged` calls it receives. */
  class FilterListener {
    var changes: nat

    constructor ()
      ensures changes == 0
    {
      changes := 0;
    }

    method FilterChanged()
      modifies this
      ensures changes == old(changes) + 1
    {
      changes := changes + 1;
    }
  }

  class StaticFilter {
    const localFilter: Option<Select>
    const remoteFilter: CollectionFilter

    constructor (localFilter: Option<Select>, remoteFilter: CollectionFilter)
      ensures this.localFilter == localFilter && this.remoteFilter == remoteFilter
    {
      this.localFilter := localFilter;
      this.remoteFilter := remoteFilter;
    }

    /** `getLocalFilter`: the local select when there is one, otherwise the remote filter's select. */
    function GetLocalFilter(): (r: Option<Select>)
      reads remoteFilter
      ensures localFilter.Some? ==> r == localFilter
      ensures localFilter.None? ==> r == remoteFilter.selection
      ensures r.None? <==> localFilter.None? && remoteFilter.selection.None?
    {
      if localFilter.Some? then localFilter else remoteFilter.selection
    }

    /** `setListener`: exactly one `filterChanged`, immediately. */
    method SetListener(listener: FilterListener)
      modifies listener
      ensures listener.changes == old(listener.changes) + 1
    {
      listener.FilterChanged();
    }
  }
}

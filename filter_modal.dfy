/**
 * The pipeline filter dialog (components/FilterModal.tsx). It keeps a local
 * copy of the filters that the chip toggles and the range inputs edit, and
 * hands it to the page on "apply".
 */
module FilterModal {
  import opened Lists

  /** `FilterState`: the lists are chip selections, the strings raw input text. */
  datatype FilterState = FilterState(
    tags: seq<string>,
    assigneeIds: seq<string>,
    status: seq<string>,
    minValue: string,
    maxValue: string,
    startDate: string,
    endDate: string)

  class FilterDialog {
    var localFilters: FilterState

    constructor (current: FilterState)
      ensures localFilters == current
    {
      localFilters := current;
    }

    /** Opening copies the page's current filters. */
    method Open(current: FilterState)
      modifies this
      ensures localFilters == current
    {
      localFilters := current;
    }

    /** `handleTagToggle`: only the tag list changes. */
    method ToggleTag(tag: string)
      modifies this
      ensures localFilters == old(localFilters).(tags := Toggle(old(localFilters).tags, tag))
    {
      localFilters := localFilters.(tags := Toggle(localFilters.tags, tag));
    }

    /** `handleStatusToggle`: only the status list changes. */
    method ToggleStatus(status: string)
      modifies this
      ensures localFilters == old(localFilters).(status := Toggle(old(localFilters).status, status))
    {
      localFilters := localFilters.(status := Toggle(localFilters.status, status));
    }

    /** `handleAssigneeToggle`: only the assignee list changes. */
    method ToggleAssignee(id: string)
      modifies this
      ensures localFilters == old(localFilters).(assigneeIds := Toggle(old(localFilters).assigneeIds, id))
    {
      localFilters := localFilters.(assigneeIds := Toggle(localFilters.assigneeIds, id));
    }

    method SetMinValue(text: string)
      modifies this
      ensures localFilters == old(localFilters).(minValue := text)
    {
      localFilters := localFilters.(minValue := text);
    }

    method SetMaxValue(text: string)
      modifies this
      ensures localFilters == old(localFilters).(maxValue := text)
    {
      localFilters := localFilters.(maxValue := text);
    }

    method SetStartDate(text: string)
      modifies this
      ensures localFilters == old(localFilters).(startDate := text)
    {
      localFilters := localFilters.(startDate := text);
    }

    method SetEndDate(text: string)
      modifies this
      ensures localFilters == old(localFilters).(endDate := text)
    {
      localFilters := localFilters.(endDate := text);
    }

    /** `handleApply`: the filters handed to the page are the local ones, unchanged. */
    method Apply() returns (applied: FilterState)
      ensures applied == localFilters
    {
      applied := localFilters;
    }
  }

  /** Toggling the same tag twice on a dialog leaves its filters as they were, when the tag was not selected. */
  lemma ToggleTagTwice(f: FilterState, tag: string)
    requires tag !in f.tags
    ensures f.(tags := Toggle(f.(tags := Toggle(f.tags, tag)).tags, tag)) == f
  {
    ToggleTwice(f.tags, tag);
  }
}

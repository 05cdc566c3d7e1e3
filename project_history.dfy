/**
 * The `project_history` table: the activity log of an internal project,
 * one row per change made through the task, member and document dialogs.
 */
module ProjectHistory {
  /** A `project_history` row: who did what to which project. */
  datatype HistoryEntry = HistoryEntry(projectId: string, userId: string, action: string, description: string)
}

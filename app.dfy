/**
 * The view switch of App.tsx: the current view and the selected deal and
 * project, `navigate`, the effect that follows the signed-in user, and the
 * page `renderView` shows.
 */
module App {
  import opened Wrappers

  /** What the app shows. `Login(proceeds)` is the login page; `proceeds` is whether signing in navigates to the pipeline. */
  datatype Screen =
    | Loading
    | Login(proceeds: bool)
    | Pipeline
    | Financial
    | Goals
    | Projects
    | ProjectDetails(projectId: string)
    | Client(dealId: Option<string>)
    | Settings
    | Calendar
    | Profile

  /** `id` as a condition: present and not empty. */
  predicate Given(id: Option<string>) {
    id.Some? && id.value != ""
  }

  /**
   * The screen for the state: the skeleton while loading, the login page
   * without a user, else the page of the current view, the projects list
   * for a project view without a project, the pipeline for an unknown view.
   */
  function Render(loading: bool, signedIn: bool, view: string, dealId: Option<string>, projectId: Option<string>): (s: Screen)
    ensures loading <==> s == Loading
    ensures !loading && !signedIn ==> s == Login(false)
    ensures s.ProjectDetails? ==> projectId == Some(s.projectId) && s.projectId != ""
    ensures s.Client? ==> s.dealId == dealId
  {
    if loading then Loading
    else if !signedIn then Login(false)
    else match view
      case "login" => Login(true)
      case "pipeline" => Pipeline
      case "financial" => Financial
      case "goals" => Goals
      case "projects" => Projects
      case "project_details" => if Given(projectId) then ProjectDetails(projectId.value) else Projects
      case "client" => Client(dealId)
      case "settings" => Settings
      case "calendar" => Calendar
      case "profile" => Profile
      case _ => Pipeline
  }

  /** The views the switch knows. */
  predicate KnownView(view: string) {
    view in {"login", "pipeline", "financial", "goals", "projects", "project_details", "client", "settings", "calendar", "profile"}
  }

  /** A view the switch does not know shows the pipeline. */
  lemma UnknownViewShowsPipeline(view: string, dealId: Option<string>, projectId: Option<string>)
    requires !KnownView(view)
    ensures Render(false, true, view, dealId, projectId) == Pipeline
  {
  }

  /** Without a selected project the project view falls back to the projects list. */
  lemma ProjectViewFallsBack(dealId: Option<string>, projectId: Option<string>)
    requires !Given(projectId)
    ensures Render(false, true, "project_details", dealId, projectId) == Projects
  {
  }

  class AppContent {
    var currentView: string
    var selectedDealId: Option<string>
    var selectedProjectId: Option<string>

    constructor ()
      ensures currentView == "login" && selectedDealId.None? && selectedProjectId.None?
    {
      currentView := "login";
      selectedDealId := None;
      selectedProjectId := None;
    }

    function Screen(loading: bool, signedIn: bool): (s: Screen)
      reads this
    {
      Render(loading, signedIn, currentView, selectedDealId, selectedProjectId)
    }

    /**
     * `navigate`: the view is always set; the deal id is stored only for a
     * client view and the project id only for a project view, each when
     * an id is given.
     */
    method Navigate(view: string, id: Option<string>)
      modifies this
      ensures currentView == view
      ensures selectedDealId == (if view == "client" && Given(id) then id else old(selectedDealId))
      ensures selectedProjectId == (if view == "project_details" && Given(id) then id else old(selectedProjectId))
    {
      if view == "client" && id.Some? && id.value != "" {
        selectedDealId := id;
      }
      if view == "project_details" && id.Some? && id.value != "" {
        selectedProjectId := id;
      }
      currentView := view;
    }

    /** The effect on the signed-in user: the login view without a user, the pipeline for a user still on the login view. */
    method FollowUser(loading: bool, signedIn: bool)
      modifies this`currentView
      ensures !loading && !signedIn ==> currentView == "login"
      ensures !loading && signedIn && old(currentView) == "login" ==> currentView == "pipeline"
      ensures loading || (signedIn && old(currentView) != "login") ==> currentView == old(currentView)
    {
      if !loading && !signedIn {
        currentView := "login";
      } else if !loading && signedIn && currentView == "login" {
        currentView := "pipeline";
      }
    }
  }

  /** Once the effect has run for a signed-in user, the login page is never what is shown. */
  lemma SignedInNeverSeesLogin(view: string, dealId: Option<string>, projectId: Option<string>)
    requires view != "login"
    ensures !Render(false, true, view, dealId, projectId).Login?
  {
  }

  /** A client or project view with its id, as `navigate` stores it, shows that deal's or that project's page. */
  lemma NavigatedPageShown(id: string, dealId: Option<string>, projectId: Option<string>)
    requires id != ""
    ensures Render(false, true, "project_details", dealId, Some(id)) == ProjectDetails(id)
    ensures Render(false, true, "client", Some(id), projectId) == Client(Some(id))
  {
  }
}

/**
 * The project card (components/ProjectCard.tsx): the label, style and icon
 * shown for a project's status, the colour derived from its category, and
 * the '+N' badge of the member row.
 */
module ProjectCard {
  import opened Wrappers

  /** The statuses the card gives a Portuguese label. */
  const LabelledStatuses: set<string> :=
    {"planning", "in_progress", "completed", "on_hold", "delayed", "not_started"}

  /** The statuses the card gives a style of their own; 'not_started' is not among them. */
  const StyledStatuses: set<string> :=
    {"planning", "in_progress", "completed", "on_hold", "delayed"}

  /** The categories with a colour of their own. */
  const ColouredCategories: set<string> :=
    {"Marketing", "Tecnologia", "Comercial", "RH", "Financeiro"}

  /** `getStatusLabel`. */
  function StatusLabel(s: string): (shown: string)
    ensures s !in LabelledStatuses ==> shown == s
    ensures s in LabelledStatuses ==> shown !in LabelledStatuses
  {
    if s == "planning" then "Planejamento"
    else if s == "in_progress" then "Em Andamento"
    else if s == "completed" then "Concluído"
    else if s == "on_hold" then "Em Pausa"
    else if s == "delayed" then "Atrasado"
    else if s == "not_started" then "Não Iniciado"
    else s
  }

  /** Two different known statuses never share a label. */
  lemma LabelsDistinct(s: string, t: string)
    requires s in LabelledStatuses && t in LabelledStatuses && s != t
    ensures StatusLabel(s) != StatusLabel(t)
  {
  }

  /** The badge styles `getStatusColor` chooses between; `Neutral` is its default branch. */
  datatype StatusStyle = Planning | InProgress | Completed | OnHold | Delayed | Neutral

  /** The class list each style stands for. */
  function ClassName(style: StatusStyle): string {
    match style
    case Planning => "text-white/50 bg-white/5 border border-white/5"
    case InProgress => "text-primary bg-primary/10 border border-primary/20 shadow-[0_0_10px_rgba(212,175,55,0.1)]"
    case Completed => "text-emerald-400 bg-emerald-500/10 border border-emerald-500/20"
    case OnHold => "text-amber-400 bg-amber-500/10 border border-amber-500/20"
    case Delayed => "text-red-400 bg-red-500/10 border border-red-500/20"
    case Neutral => "text-white/30 bg-white/5"
  }

  /** `getStatusColor`. */
  function StatusColor(s: string): (style: StatusStyle)
    ensures style == Neutral <==> s !in StyledStatuses
  {
    if s == "planning" then Planning
    else if s == "in_progress" then InProgress
    else if s == "completed" then Completed
    else if s == "on_hold" then OnHold
    else if s == "delayed" then Delayed
    else Neutral
  }

  /** 'not_started' has a label of its own but is drawn like an unknown status. */
  lemma NotStartedUnstyled()
    ensures StatusLabel("not_started") != "not_started"
    ensures StatusColor("not_started") == StatusColor("unknown")
  {
  }

  /** Every styled status is also labelled. */
  lemma StyledAreLabelled(s: string)
    requires StatusColor(s) != Neutral
    ensures StatusLabel(s) != s
  {
  }

  /** The icon beside the status label. */
  function StatusIcon(s: string): (icon: string)
    ensures icon != "architecture" <==> s in {"delayed", "in_progress", "completed"}
  {
    if s == "delayed" then "priority_high"
    else if s == "in_progress" then "schedule"
    else if s == "completed" then "check_circle"
    else "architecture"
  }

  /** `getCategoryColor`. */
  function CategoryColor(category: string): (colour: string)
    ensures colour == "slate" <==> category !in ColouredCategories
    ensures colour in {"purple", "cyan", "blue", "rose", "emerald", "slate"}
  {
    if category == "Marketing" then "purple"
    else if category == "Tecnologia" then "cyan"
    else if category == "Comercial" then "blue"
    else if category == "RH" then "rose"
    else if category == "Financeiro" then "emerald"
    else "slate"
  }

  /** `computedColor`: a colour passed in wins unless it is the default 'blue'. */
  function ComputedColor(category: string, categoryColor: Option<string>): (colour: string)
    ensures categoryColor.Some? && categoryColor.value != "blue" ==> colour == categoryColor.value
    ensures categoryColor.None? || categoryColor.value == "blue" ==> colour == CategoryColor(category)
  {
    var given := if categoryColor.Some? then categoryColor.value else "blue";
    if given == "blue" then CategoryColor(category) else given
  }

  /** Passing 'blue' is the same as passing nothing, so a card cannot be forced blue outside 'Comercial'. */
  lemma BlueMeansDerived(category: string)
    ensures ComputedColor(category, Some("blue")) == ComputedColor(category, None)
    ensures ComputedColor(category, Some("blue")) == "blue" <==> category == "Comercial"
  {
  }

  /** The number of circles drawn for the members: one avatar each, or a single '?' when there are none. */
  function AvatarCount(members: nat): (n: nat)
    ensures n >= 1 && (members > 0 ==> n == members)
  {
    if members > 0 then members else 1
  }

  /** The '+N' badge: present exactly when there are more than four members. */
  function OverflowBadge(members: nat): (badge: Option<nat>)
    ensures badge.Some? <==> members > 4
    ensures badge.Some? ==> badge.value + 4 == members
  {
    if members > 4 then Some(members - 4) else None
  }

  /** No avatar is hidden, so with a badge the card counts the members beyond the fourth twice. */
  lemma BadgeDoesNotHide(members: nat)
    requires members > 4
    ensures AvatarCount(members) + OverflowBadge(members).value == 2 * members - 4
  {
  }
}

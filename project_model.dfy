/** The `Project` record shown on a card and stored in the `projects` table. */
module ProjectModel {
  import opened Maybe

  datatype ServiceType = AR | VR | Gaming

  datatype Status = Draft | InProgress | Blocked | Review | Completed

  /** The string the table stores (and the filters compare against). */
  function ServiceTypeName(t: ServiceType): string {
    match t
    case AR => "AR"
    case VR => "VR"
    case Gaming => "Gaming"
  }

  function StatusName(s: Status): string {
    match s
    case Draft => "Draft"
    case InProgress => "In Progress"
    case Blocked => "Blocked"
    case Review => "Review"
    case Completed => "Completed"
  }

  /** One row.  `createdAt` and `updatedAt` are opaque timestamps set by the store. */
  datatype Project = Project(
    id: string,
    title: string,
    summary: Option<string>,
    serviceType: ServiceType,
    status: Status,
    progress: int,
    tags: seq<string>,
    isArchived: bool,
    createdAt: string,
    updatedAt: string,
    ownerId: string)
}

/** The database enums of src/integrations/supabase/types.ts. */
module Enums {
  import opened Wrappers

  datatype TransactionType = Earned | Spent | Purchased
  datatype VideoStatus = Pending | Approved | Rejected
  datatype AppRole = Admin | User

  function TransactionTypeName(t: TransactionType): string
  {
    match t
    case Earned => "earned"
    case Spent => "spent"
    case Purchased => "purchased"
  }

  function VideoStatusName(v: VideoStatus): string
  {
    match v
    case Pending => "pending"
    case Approved => "approved"
    case Rejected => "rejected"
  }

  function AppRoleName(r: AppRole): string
  {
    match r
    case Admin => "admin"
    case User => "user"
  }

  /** The enum value a stored string denotes; `None` for any other string. */
  function ParseVideoStatus(s: string): (r: Option<VideoStatus>)
    ensures r.Some? ==> VideoStatusName(r.value) == s
    ensures r.None? ==> forall v :: VideoStatusName(v) != s
  {
    if s == "pending" then Some(Pending)
    else if s == "approved" then Some(Approved)
    else if s == "rejected" then Some(Rejected)
    else None
  }

  function ParseTransactionType(s: string): (r: Option<TransactionType>)
    ensures r.Some? ==> TransactionTypeName(r.value) == s
    ensures r.None? ==> forall t :: TransactionTypeName(t) != s
  {
    if s == "earned" then Some(Earned)
    else if s == "spent" then Some(Spent)
    else if s == "purchased" then Some(Purchased)
    else None
  }

  function ParseAppRole(s: string): (r: Option<AppRole>)
    ensures r.Some? ==> AppRoleName(r.value) == s
    ensures r.None? ==> forall a :: AppRoleName(a) != s
  {
    if s == "admin" then Some(Admin)
    else if s == "user" then Some(User)
    else None
  }
}

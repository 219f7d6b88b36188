/** The result shape of the todo repository: each asynchronous operation answers either
    `{success: true, data}` or `{success: false, error}` and never throws. */
module Results {

  datatype Option<+T> = None | Some(value: T)

  /** The failures the repository can report. */
  datatype Error =
    | NotAuthenticated          // thrown by getUserTodosRef when no user is signed in
    | NoCurrentUser             // TypeError from reading `currentUser.uid` while currentUser is null
    | NotFound                  // the store refuses to update a document that does not exist
    | StoreFailure(message: string)  // network, permission or quota failure raised by the store

  /** The `error.message` string the repository hands back to its caller. */
  function Message(e: Error): (m: string)
    ensures e.StoreFailure? ==> m == e.message
    ensures e.NotAuthenticated? ==> m == "User not authenticated"
    ensures e.NoCurrentUser? ==> m == "Cannot read property 'uid' of null"
    ensures e.NotFound? ==> m == "[firestore/not-found] Some requested document was not found."
  {
    match e
    case NotAuthenticated => "User not authenticated"
    case NoCurrentUser => "Cannot read property 'uid' of null"
    case NotFound => "[firestore/not-found] Some requested document was not found."
    case StoreFailure(m) => m
  }

  datatype Result<+T> = Success(data: T) | Failure(error: Error)
}

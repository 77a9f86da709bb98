/** The notifications the components raise, as outcome tags; their wording,
    styling and timing are presentation. */
module Toasts {

  datatype Toast =
    | Created          // a record was inserted
    | Updated          // a record was updated
    | Deleted          // a record was deleted
    | Published        // a report was made public
    | Hidden           // a report was taken back to draft
    | MissingFields    // the client-side check of required fields failed
    | LoadFailed       // the list could not be fetched
    | SaveFailed       // an insert or update returned an error or threw
    | DeleteFailed     // a delete returned an error or threw
    | StatusFailed     // a publish toggle returned an error or threw
    | SignedOut        // the admin session ended
    | SignOutFailed    // the sign-out call threw
    | MessageSent      // the contact form was submitted
}

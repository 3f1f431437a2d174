/**
 * The session of the signed-in user, as the authentication layer hands it to
 * the components: an optional user id, a role and, for administrators, the
 * club they administer.
 */
module Auth {
  import opened Wrappers

  datatype Role = User | Admin

  datatype Session = Session(userId: Option<string>, role: Role, clubId: Option<string>)

  /** The user of `session` administers club `clubId`. */
  predicate IsAdminOfTheClub(session: Option<Session>, clubId: string) {
    session.Some? && session.value.role == Admin && session.value.clubId == Some(clubId)
  }

  /** JavaScript truthiness of an optional string: present and not empty. */
  predicate Truthy(s: Option<string>) {
    s.Some? && s.value != ""
  }
}

/** Clients of the store that rely on the handlers' contracts alone: the
    role and mentor-gate cases a caller of the API meets. */
module Scenarios {
  import opened Http
  import opened Documents
  import opened Auth
  import opened Catalog
  import opened Server
  import Password

  /** A strong password does not make up for a role outside mentor/student. */
  method AdminRoleScenario() {
    var db := new Database();
    Password.Examples();
    var admin := db.Register(Registration("Zed", "zed@example.com", "ValidPass123", "admin"), "id-z", 1, "digest-z");
    assert admin == Err(BadRole) && db.users == [];
  }

  /** A user registered without a role is a student: it passes
      authentication but not the mentor gate, and the store is left as it
      was. */
  method StudentGateScenario() {
    var db := new Database();
    Password.Examples();
    var s := db.Register(RegistrationDefaults("Sam", "sam@example.com", "ValidPass123"), "id-s", 1, "digest-s");
    assert s.Ok?;
    var byStudent := db.CreateCategory(Decode(s.value.accessToken), CategoryCreateDefaults("Maths", "Numbers"), "cat-s", 2);
    assert byStudent == Err(MentorsOnly) && db.categories == [];
  }
}

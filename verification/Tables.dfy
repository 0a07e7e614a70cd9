/** Rows of the shared tables (apps/users, apps/extensions, apps/dids models). Ids are opaque. */
module Tables {
  import opened Wrappers

  datatype User = User(email: string, firstName: string, lastName: string, tenant: Option<int>)

  /** `user` is a one-to-one column: no two rows name the same user. */
  datatype Extension = Extension(tenant: int, objectId: string, number: string, sipUsername: string, user: Option<int>)

  datatype Did = Did(tenant: int, objectId: string, number: string, department: Option<int>, account: Option<int>)

  /** UserDID: a user may use a DID. */
  datatype Grant = Grant(user: int, did: int)

  /** UserDIDDivisionAssignment: a caller works a DID under a division. */
  datatype Assignment = Assignment(user: int, did: int, division: int, department: Option<int>)
}

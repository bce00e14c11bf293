/** The configuration entities as plain values. */
module ConfigTypes {
  import opened Text
  import opened PolicyTypes

  datatype House = House(id: string, name: string, adminTokenHash: string, timeZone: string, email: string,
                         emails: seq<string>)

  datatype Invitation = Invitation(codeHash: string, email: string, createdAt: int, expiresAt: int, usedAt: Option<int>)

  datatype WaitlistEntry = WaitlistEntry(email: string, createdAt: int)

  datatype Config = Config(houses: seq<House>, invitations: seq<Invitation>, waitlist: seq<WaitlistEntry>,
                           profiles: seq<Profile>)
}

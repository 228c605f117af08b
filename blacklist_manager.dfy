/** The blacklist: a map from user id to the entry recording who was barred,
    why and when. Each operation works on the map as loaded; the JSON file it
    is read from and written back to is not modelled. */
module BlacklistManager {
  import opened Wrappers

  datatype BlacklistEntry = BlacklistEntry(userId: string, userName: string, reason: string, timestamp: string)

  /** The reason `addUser` stores when none is passed. */
  const DefaultReason: string := "No reason provided"

  /** The reason stored for an optional reason argument: the default applies
      only when the argument is left out, so an empty reason is kept. */
  function ReasonOf(reason: Option<string>): (r: string)
    ensures reason.Some? ==> r == reason.value
    ensures reason.None? ==> r == DefaultReason
  {
    reason.GetOr(DefaultReason)
  }

  class Blacklist {
    var entries: map<string, BlacklistEntry>

    /** The map as loaded from storage (`{}` when the file is missing or
        unreadable). */
    constructor (loaded: map<string, BlacklistEntry>)
      ensures entries == loaded
    {
      entries := loaded;
    }

    /** `addUser`: sets or overwrites the entry under the user's id. */
    method AddUser(userId: string, userTag: string, reason: Option<string>, timestamp: string)
      modifies this
      ensures entries == old(entries)[userId := BlacklistEntry(userId, userTag, ReasonOf(reason), timestamp)]
    {
      entries := entries[userId := BlacklistEntry(userId, userTag, ReasonOf(reason), timestamp)];
    }

    /** `removeUser`: deletes the entry when there is one and says whether
        there was; otherwise the map is not written. */
    method RemoveUser(userId: string) returns (removed: bool)
      modifies this
      ensures removed <==> userId in old(entries)
      ensures entries == old(entries) - {userId}
      ensures !removed ==> entries == old(entries)
    {
      if userId in entries {
        entries := entries - {userId};
        return true;
      }
      return false;
    }

    /** `isBlacklisted` */
    function IsBlacklisted(userId: string): (r: bool)
      reads this
      ensures r <==> userId in entries
    {
      userId in entries
    }

    /** `getEntry`: the stored entry, or nothing. */
    function GetEntry(userId: string): (r: Option<BlacklistEntry>)
      reads this
      ensures r.Some? <==> IsBlacklisted(userId)
      ensures r.Some? ==> r.value == entries[userId]
    {
      if userId in entries then Some(entries[userId]) else None
    }
  }

  /** Adding a user bars them, with the entry under their own id; removing
      them again reports the removal and unbars them; a second removal reports
      nothing; every other user's entry is as it was throughout. */
  method AddRemoveRoundTrip(loaded: map<string, BlacklistEntry>, userId: string, userTag: string,
                            reason: Option<string>, timestamp: string, other: string)
    returns (barred: bool, entry: Option<BlacklistEntry>, removed: bool, stillBarred: bool,
             removedAgain: bool, otherEntry: Option<BlacklistEntry>)
    requires other != userId
    ensures barred && !stillBarred
    ensures entry == Some(BlacklistEntry(userId, userTag, ReasonOf(reason), timestamp))
    ensures removed && !removedAgain
    ensures otherEntry == (if other in loaded then Some(loaded[other]) else None)
  {
    var b := new Blacklist(loaded);
    b.AddUser(userId, userTag, reason, timestamp);
    barred := b.IsBlacklisted(userId);
    entry := b.GetEntry(userId);
    removed := b.RemoveUser(userId);
    stillBarred := b.IsBlacklisted(userId);
    removedAgain := b.RemoveUser(userId);
    otherEntry := b.GetEntry(other);
  }
}

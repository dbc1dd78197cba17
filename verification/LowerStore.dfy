/** Stored lowers with their sender and recipient indexes. */
module LowerStore {
  import opened Options
  import opened LowerMerge

  /** An index key is an address; None is the key under which lowers without that address are filed. */
  type Index = map<Option<string>, set<nat>>

  datatype LowerDb = LowerDb(lowers: map<nat, LowerData>, senders: Index, recipients: Index)

  const EMPTY_DB := LowerDb(map[], map[], map[])

  function Entry(index: Index, key: Option<string>): set<nat> {
    if key in index then index[key] else {}
  }

  function RecipientKey(to: Option<string>): Option<string> {
    if to.Some? then Some(ToLower(to.value)) else None
  }

  function SetLower(db: LowerDb, lowerId: nat, d: LowerData): LowerDb {
    LowerDb(db.lowers[lowerId := d],
            db.senders[d.from := Entry(db.senders, d.from) + {lowerId}],
            db.recipients[RecipientKey(d.to) := Entry(db.recipients, RecipientKey(d.to)) + {lowerId}])
  }

  function DeleteLower(db: LowerDb, lowerId: nat): LowerDb {
    if lowerId !in db.lowers then db else
      var d := db.lowers[lowerId];
      LowerDb(db.lowers - {lowerId},
              db.senders[d.from := Entry(db.senders, d.from) - {lowerId}],
              db.recipients[RecipientKey(d.to) := Entry(db.recipients, RecipientKey(d.to)) - {lowerId}])
  }

  function IdsByAddress(db: LowerDb, address: string): set<nat> {
    if Entry(db.senders, Some(address)) == {} then Entry(db.recipients, Some(address))
    else Entry(db.senders, Some(address))
  }

  // ---- Agreement with a plain scan ----

  function SentBy(db: LowerDb, address: string): set<nat> {
    set n | n in db.lowers && db.lowers[n].from == Some(address)
  }

  function ReceivedBy(db: LowerDb, address: string): set<nat> {
    set n | n in db.lowers && RecipientKey(db.lowers[n].to) == Some(address)
  }

  ghost predicate IndexAgrees(db: LowerDb) {
    && (forall a :: Entry(db.senders, Some(a)) == SentBy(db, a))
    && (forall a :: Entry(db.recipients, Some(a)) == ReceivedBy(db, a))
  }

  /** A write over a stored lower may add an address that was missing but not change one. */
  predicate KeepsAddresses(db: LowerDb, lowerId: nat, d: LowerData) {
    lowerId in db.lowers ==>
      (db.lowers[lowerId].from == d.from || db.lowers[lowerId].from.None?) &&
      (db.lowers[lowerId].to == d.to || db.lowers[lowerId].to.None?)
  }

  lemma SetKeepsSenders(db: LowerDb, lowerId: nat, d: LowerData, a: string)
    requires IndexAgrees(db) && KeepsAddresses(db, lowerId, d)
    ensures Entry(SetLower(db, lowerId, d).senders, Some(a)) == SentBy(SetLower(db, lowerId, d), a)
  {
    assert Entry(db.senders, Some(a)) == SentBy(db, a);
  }

  lemma SetKeepsRecipients(db: LowerDb, lowerId: nat, d: LowerData, a: string)
    requires IndexAgrees(db) && KeepsAddresses(db, lowerId, d)
    ensures Entry(SetLower(db, lowerId, d).recipients, Some(a)) == ReceivedBy(SetLower(db, lowerId, d), a)
  {
    assert Entry(db.recipients, Some(a)) == ReceivedBy(db, a);
  }

  lemma SetKeepsIndex(db: LowerDb, lowerId: nat, d: LowerData)
    requires IndexAgrees(db) && KeepsAddresses(db, lowerId, d)
    ensures IndexAgrees(SetLower(db, lowerId, d))
  {
    var end := SetLower(db, lowerId, d);
    forall a ensures Entry(end.senders, Some(a)) == SentBy(end, a) {
      SetKeepsSenders(db, lowerId, d, a);
    }
    forall a ensures Entry(end.recipients, Some(a)) == ReceivedBy(end, a) {
      SetKeepsRecipients(db, lowerId, d, a);
    }
  }

  lemma DeleteKeepsIndex(db: LowerDb, lowerId: nat)
    requires IndexAgrees(db)
    ensures IndexAgrees(DeleteLower(db, lowerId))
  {
    var end := DeleteLower(db, lowerId);
    forall a ensures Entry(end.senders, Some(a)) == SentBy(end, a) {
      assert Entry(db.senders, Some(a)) == SentBy(db, a);
    }
    forall a ensures Entry(end.recipients, Some(a)) == ReceivedBy(end, a) {
      assert Entry(db.recipients, Some(a)) == ReceivedBy(db, a);
    }
  }

  /** A deleted lower is gone from the store and from every address; every other lower and every other id of an address
      is as before. */
  lemma DeletedIsGone(db: LowerDb, lowerId: nat)
    requires IndexAgrees(db)
    ensures var end := DeleteLower(db, lowerId);
            && lowerId !in end.lowers && end.lowers.Keys == db.lowers.Keys - {lowerId}
            && (forall n | n in end.lowers :: end.lowers[n] == db.lowers[n])
            && (forall a :: lowerId !in IdsByAddress(end, a))
            && (forall a, n | n != lowerId :: n in SentBy(end, a) <==> n in SentBy(db, a))
            && (forall a, n | n != lowerId :: n in ReceivedBy(end, a) <==> n in ReceivedBy(db, a))
  {
    var end := DeleteLower(db, lowerId);
    DeleteKeepsIndex(db, lowerId);
    forall a ensures lowerId !in IdsByAddress(end, a) {
      LookupIsScan(end, a);
    }
  }

  /** A lookup by address is the plain scan: what the address sent or, if it sent nothing, what it receives. */
  lemma LookupIsScan(db: LowerDb, address: string)
    requires IndexAgrees(db)
    ensures IdsByAddress(db, address) ==
            if SentBy(db, address) == {} then ReceivedBy(db, address) else SentBy(db, address)
  {
  }

  /** The recipient index is filed in lower case: a lookup by the recipient of a stored lower, by an address that sent
      nothing, finds the lower if and only if the address is written without capitals. */
  lemma RecipientFoundInLowerCase(db: LowerDb, lowerId: nat, recipient: string, address: string)
    requires IndexAgrees(db) && SentBy(db, address) == {}
    requires lowerId in db.lowers && db.lowers[lowerId].to == Some(recipient) && ToLower(address) == ToLower(recipient)
    ensures lowerId in IdsByAddress(db, address) <==> address == ToLower(address)
  {
    assert lowerId in ReceivedBy(db, address) <==> Some(ToLower(recipient)) == Some(address);
    LookupIsScan(db, address);
  }

  /** An address written with capitals that sent nothing finds nothing at all. */
  lemma CapitalsFindNoRecipient(db: LowerDb, address: string)
    requires IndexAgrees(db) && SentBy(db, address) == {} && address != ToLower(address)
    ensures IdsByAddress(db, address) == {}
  {
    forall n | n in db.lowers ensures RecipientKey(db.lowers[n].to) != Some(address) {
      if db.lowers[n].to.Some? {
        ToLowerTwice(db.lowers[n].to.value);
      }
    }
  }

  class RedisLowers {
    var lowers: map<nat, LowerData>
    var senders: Index
    var recipients: Index
    var lastBlockId: string

    constructor ()
      ensures Db() == EMPTY_DB && lastBlockId == ""
    {
      lowers, senders, recipients, lastBlockId := map[], map[], map[], "";
    }

    ghost function Db(): LowerDb
      reads this
    {
      LowerDb(lowers, senders, recipients)
    }

    method SetLowerById(lowerId: nat, lowerData: LowerData)
      modifies this
      ensures Db() == SetLower(old(Db()), lowerId, lowerData) && lastBlockId == old(lastBlockId)
    {
      var recipientKey := RecipientKey(lowerData.to);
      lowers := lowers[lowerId := lowerData];
      senders := senders[lowerData.from := Entry(senders, lowerData.from) + {lowerId}];
      recipients := recipients[recipientKey := Entry(recipients, recipientKey) + {lowerId}];
    }

    method DeleteLowerById(lowerId: nat)
      modifies this
      ensures Db() == DeleteLower(old(Db()), lowerId) && lastBlockId == old(lastBlockId)
      ensures lowerId !in lowers && forall n | n != lowerId :: n in lowers <==> n in old(lowers)
    {
      if lowerId !in lowers {
        return;
      }
      var lowerData := lowers[lowerId];
      var recipientKey := RecipientKey(lowerData.to);
      lowers := lowers - {lowerId};
      senders := senders[lowerData.from := Entry(senders, lowerData.from) - {lowerId}];
      recipients := recipients[recipientKey := Entry(recipients, recipientKey) - {lowerId}];
    }

    method GetLowerIdsByAddress(address: string) returns (lowerIds: set<nat>)
      ensures lowerIds == IdsByAddress(Db(), address)
      ensures IndexAgrees(Db()) ==>
                lowerIds == if SentBy(Db(), address) == {} then ReceivedBy(Db(), address) else SentBy(Db(), address)
    {
      lowerIds := Entry(senders, Some(address));
      if lowerIds == {} {
        lowerIds := Entry(recipients, Some(address));
      }
    }
  }
}

/** Relayer fees: a table built from fee rows, against the lookup of a single fee. */
module Fees {
  import opened Options

  /** A fee row: for one transaction or for all, for one user or for none. */
  datatype FeeRow = FeeRow(transaction: Option<string>, userPublicKey: Option<string>, fee: string)

  predicate Truthy(text: Option<string>) {
    text.Some? && text.value != ""
  }

  function TransactionOf(r: FeeRow): Option<string> {
    if Truthy(r.transaction) then r.transaction else None
  }

  function Or(fee: Option<string>, default: string): string {
    if fee.Some? then fee.value else default
  }

  function Get(fees: map<string, string>, name: string): Option<string> {
    if name in fees then Some(fees[name]) else None
  }

  /** What the rows leave: a fee per named transaction, and the user-wide default if there is one. */
  datatype Collected = Collected(fees: map<string, string>, default: Option<string>)

  function Collect(c: Collected, r: FeeRow): Collected {
    if Truthy(r.transaction) then
      if !Truthy(Get(c.fees, r.transaction.value)) || Truthy(r.userPublicKey)
      then c.(fees := c.fees[r.transaction.value := r.fee]) else c
    else if Truthy(r.userPublicKey) then c.(default := Some(r.fee))
    else c
  }

  function CollectAll(rows: seq<FeeRow>): Collected {
    if rows == [] then Collected(map[], None) else Collect(CollectAll(rows[..|rows| - 1]), rows[|rows| - 1])
  }

  /** The fees of the rows, completed for every listed transaction by the user-wide fee or the relayer's default. */
  function BuildFees(rows: seq<FeeRow>, relayerDefaultFee: string, names: seq<string>): map<string, string> {
    var c := CollectAll(rows);
    map n | n in c.fees.Keys + (set m | m in names) :: Or(Get(c.fees, n), Or(c.default, relayerDefaultFee))
  }

  method BuildFeesJson(feeDbResult: seq<FeeRow>, relayerDefaultFee: string, transactionTypes: seq<string>)
    returns (relayerFees: map<string, string>)
    ensures relayerFees == BuildFees(feeDbResult, relayerDefaultFee, transactionTypes)
  {
    var defaultFee: Option<string> := None;
    relayerFees := map[];
    for i := 0 to |feeDbResult|
      invariant Collected(relayerFees, defaultFee) == CollectAll(feeDbResult[..i])
    {
      var r := feeDbResult[i];
      assert feeDbResult[..i + 1][..i] == feeDbResult[..i];
      if Truthy(r.transaction) {
        var name := r.transaction.value;
        if !Truthy(Get(relayerFees, name)) || Truthy(r.userPublicKey) {
          relayerFees := relayerFees[name := r.fee];
        }
      } else if Truthy(r.userPublicKey) {
        defaultFee := Some(r.fee);
      }
    }
    assert feeDbResult[..|feeDbResult|] == feeDbResult;
    ghost var fees := relayerFees;
    var default := Or(defaultFee, relayerDefaultFee);
    for i := 0 to |transactionTypes|
      invariant relayerFees ==
                map n | n in fees.Keys + (set m | m in transactionTypes[..i]) :: Or(Get(fees, n), default)
    {
      var name := transactionTypes[i];
      assert transactionTypes[..i + 1] == transactionTypes[..i] + [name];
      relayerFees := relayerFees[name := Or(Get(relayerFees, name), default)];
    }
    assert transactionTypes[..|transactionTypes|] == transactionTypes;
  }

  // ---- The builder over any rows ----

  predicate SameKey(r: FeeRow, q: FeeRow) {
    TransactionOf(r) == TransactionOf(q) && Truthy(r.userPublicKey) == Truthy(q.userPublicKey)
  }

  /** At most one row per transaction-or-none and user-or-none, and no empty fee. */
  predicate Proper(rows: seq<FeeRow>) {
    && (forall i, j | 0 <= i < j < |rows| :: !SameKey(rows[i], rows[j]))
    && (forall i | 0 <= i < |rows| :: rows[i].fee != "")
  }

  predicate IsFor(r: FeeRow, transaction: Option<string>, user: bool) {
    TransactionOf(r) == transaction && Truthy(r.userPublicKey) == user
  }

  /** The fee of the row for a transaction (or for all of them) and for the user (or for nobody). */
  function Find(rows: seq<FeeRow>, transaction: Option<string>, user: bool): Option<string> {
    if rows == [] then None
    else if IsFor(rows[|rows| - 1], transaction, user) then Some(rows[|rows| - 1].fee)
    else Find(rows[..|rows| - 1], transaction, user)
  }

  /** User-and-transaction fee first, else the transaction's generic fee. */
  function OwnFee(rows: seq<FeeRow>, name: string): Option<string> {
    if Find(rows, Some(name), true).Some? then Find(rows, Some(name), true) else Find(rows, Some(name), false)
  }

  lemma {:induction false} NoRow(rows: seq<FeeRow>, r: FeeRow)
    requires forall i | 0 <= i < |rows| :: !SameKey(rows[i], r)
    ensures Find(rows, TransactionOf(r), Truthy(r.userPublicKey)).None?
  {
    if rows != [] {
      NoRow(rows[..|rows| - 1], r);
    }
  }

  lemma {:induction false} FoundFeesAreNotEmpty(rows: seq<FeeRow>, transaction: Option<string>, user: bool)
    requires forall i | 0 <= i < |rows| :: rows[i].fee != ""
    ensures Find(rows, transaction, user) != Some("")
  {
    if rows != [] {
      FoundFeesAreNotEmpty(rows[..|rows| - 1], transaction, user);
    }
  }

  lemma {:induction false} CollectedIsFound(rows: seq<FeeRow>, name: string)
    requires Proper(rows) && name != ""
    ensures Get(CollectAll(rows).fees, name) == OwnFee(rows, name)
    ensures CollectAll(rows).default == Find(rows, None, true)
  {
    if rows != [] {
      var front, r := rows[..|rows| - 1], rows[|rows| - 1];
      CollectedIsFound(front, name);
      NoRow(front, r);
      FoundFeesAreNotEmpty(front, Some(name), true);
      FoundFeesAreNotEmpty(front, Some(name), false);
    }
  }

  /** The builder's own order, over rows of a user and of nobody alike: the fee for the user and the transaction, else
      the transaction's generic one, else the user-wide one, else the relayer's default. */
  lemma FeePrecedence(rows: seq<FeeRow>, default: string, names: seq<string>, name: string)
    requires Proper(rows) && name != "" && name in names
    ensures name in BuildFees(rows, default, names)
    ensures BuildFees(rows, default, names)[name] == Or(OwnFee(rows, name), Or(Find(rows, None, true), default))
  {
    CollectedIsFound(rows, name);
  }

  // ---- The rows of one user, or of nobody ----

  /** A missing or empty user stands for nobody. */
  function Wanted(user: Option<string>): Option<string> {
    if Truthy(user) then user else None
  }

  function RowsFor(table: seq<FeeRow>, user: Option<string>): seq<FeeRow> {
    if table == [] then [] else
      RowsFor(table[..|table| - 1], user) +
      (if table[|table| - 1].userPublicKey == user then [table[|table| - 1]] else [])
  }

  /** The first row for this user (or for nobody) and this transaction. */
  function FindOne(table: seq<FeeRow>, user: Option<string>, name: string): Option<string> {
    if table == [] then None
    else if table[0].userPublicKey == user && table[0].transaction == Some(name) then Some(table[0].fee)
    else FindOne(table[1..], user, name)
  }

  function GetSingleFee(table: seq<FeeRow>, default: string, user: Option<string>, name: string): string {
    Or(FindOne(table, Wanted(user), name), default)
  }

  function GetAllFees(table: seq<FeeRow>, default: string, user: Option<string>, names: seq<string>)
    : map<string, string>
  {
    BuildFees(RowsFor(table, Wanted(user)), default, names)
  }

  /** Assumed of the table: one row per user and transaction. The unique key does not ensure it where a column is null,
      because rows with nulls may repeat under it. */
  predicate OneRowEach(table: seq<FeeRow>) {
    forall i, j | 0 <= i < j < |table| ::
      table[i].userPublicKey != table[j].userPublicKey || TransactionOf(table[i]) != TransactionOf(table[j])
  }

  predicate RowOf(r: FeeRow, user: Option<string>, transaction: Option<string>) {
    r.userPublicKey == user && TransactionOf(r) == transaction
  }

  /** The fee of a user's (or nobody's) row for a transaction or, with None, for all of them. */
  function RowFee(table: seq<FeeRow>, user: Option<string>, transaction: Option<string>): Option<string> {
    if table == [] then None
    else if RowOf(table[|table| - 1], user, transaction) then Some(table[|table| - 1].fee)
    else RowFee(table[..|table| - 1], user, transaction)
  }

  lemma {:induction false} RowFeeIsRow(table: seq<FeeRow>, user: Option<string>, transaction: Option<string>, r: FeeRow)
    requires OneRowEach(table) && r in table && RowOf(r, user, transaction)
    ensures RowFee(table, user, transaction) == Some(r.fee)
  {
    var front, last := table[..|table| - 1], table[|table| - 1];
    if RowOf(last, user, transaction) {
      var i :| 0 <= i < |table| && table[i] == r;
      assert i == |table| - 1;
    } else {
      assert r in front;
      RowFeeIsRow(front, user, transaction, r);
    }
  }

  lemma {:induction false} RowFeeHasRow(table: seq<FeeRow>, user: Option<string>, transaction: Option<string>)
    returns (r: FeeRow)
    requires RowFee(table, user, transaction).Some?
    ensures r in table && RowOf(r, user, transaction) && RowFee(table, user, transaction) == Some(r.fee)
  {
    r := table[|table| - 1];
    if !RowOf(r, user, transaction) {
      r := RowFeeHasRow(table[..|table| - 1], user, transaction);
    }
  }

  lemma {:induction false} NoRowNoFee(table: seq<FeeRow>, user: Option<string>, transaction: Option<string>)
    requires forall i | 0 <= i < |table| :: !RowOf(table[i], user, transaction)
    ensures RowFee(table, user, transaction).None?
  {
    if table != [] {
      NoRowNoFee(table[..|table| - 1], user, transaction);
    }
  }

  lemma CollectForUserGrows(table: seq<FeeRow>, user: Option<string>)
    requires table != []
    ensures var front, last := CollectAll(RowsFor(table[..|table| - 1], user)), table[|table| - 1];
            CollectAll(RowsFor(table, user)) == if last.userPublicKey == user then Collect(front, last) else front
  {
    var rows, before := RowsFor(table, user), RowsFor(table[..|table| - 1], user);
    if table[|table| - 1].userPublicKey == user {
      assert rows[..|rows| - 1] == before;
    } else {
      assert rows == before;
    }
  }

  lemma CollectOne(c: Collected, r: FeeRow, name: string)
    requires name != ""
    ensures Get(Collect(c, r).fees, name) ==
            if TransactionOf(r) == Some(name) && (!Truthy(Get(c.fees, name)) || Truthy(r.userPublicKey))
            then Some(r.fee)
            else Get(c.fees, name)
    ensures Collect(c, r).default ==
            if TransactionOf(r).None? && Truthy(r.userPublicKey) then Some(r.fee) else c.default
  {
  }

  /** What the builder collects from the rows of one user: each row under its transaction, and the row without one as
      the default; of nobody's rows the one without a transaction is not used. */
  lemma {:induction false} CollectedForUser(table: seq<FeeRow>, user: Option<string>, name: string)
    requires OneRowEach(table) && name != "" && user != Some("")
    ensures var c := CollectAll(RowsFor(table, user));
            && Get(c.fees, name) == RowFee(table, user, Some(name))
            && c.default == if user.Some? then RowFee(table, user, None) else None
  {
    if table != [] {
      var front, last := table[..|table| - 1], table[|table| - 1];
      CollectedForUser(front, user, name);
      CollectForUserGrows(table, user);
      CollectOne(CollectAll(RowsFor(front, user)), last, name);
      if RowOf(last, user, Some(name)) {
        assert forall i | 0 <= i < |front| :: !RowOf(table[i], user, Some(name));
        NoRowNoFee(front, user, Some(name));
      }
    }
  }

  /** The user's own fee for the transaction, else the user-wide one, else the relayer's default; for nobody the generic
      fee of the transaction, else the default. */
  lemma AllFeesPrecedence(table: seq<FeeRow>, default: string, user: Option<string>, names: seq<string>, name: string)
    requires OneRowEach(table) && name != "" && name in names
    ensures name in GetAllFees(table, default, user, names)
    ensures GetAllFees(table, default, user, names)[name] ==
            if RowFee(table, Wanted(user), Some(name)).Some? then RowFee(table, Wanted(user), Some(name)).value
            else if Truthy(user) && RowFee(table, user, None).Some? then RowFee(table, user, None).value
            else default
  {
    CollectedForUser(table, Wanted(user), name);
  }

  /** The four levels the builder's order leads to expect for a user. */
  function FourLevels(table: seq<FeeRow>, default: string, user: Option<string>, name: string): string {
    if RowFee(table, user, Some(name)).Some? then RowFee(table, user, Some(name)).value
    else if RowFee(table, None, Some(name)).Some? then RowFee(table, None, Some(name)).value
    else if RowFee(table, user, None).Some? then RowFee(table, user, None).value
    else default
  }

  /** A generic fee never reaches a user, in the table or in the single lookup: the table has the four levels if and
      only if the user has a row for the transaction, or there is no generic one, or its fee is what the user has
      otherwise. */
  lemma GenericFeeReachesNobodyElse(table: seq<FeeRow>, default: string, user: Option<string>, names: seq<string>,
                                    name: string)
    requires OneRowEach(table) && name != "" && name in names && Truthy(user)
    ensures var own, generic := RowFee(table, user, Some(name)), RowFee(table, None, Some(name));
            GetAllFees(table, default, user, names)[name] == FourLevels(table, default, user, name) <==>
            own.Some? || generic.None? || generic.value == Or(RowFee(table, user, None), default)
    ensures RowFee(table, user, Some(name)).None? ==> GetSingleFee(table, default, user, name) == default
  {
    AllFeesPrecedence(table, default, user, names, name);
    FindOneIsRowFee(table, user, name);
  }

  /** One generic row: whoever asks without a user gets its fee, a user gets the relayer's default. */
  lemma GenericFeeExample(name: string, generic: string, default: string, user: string)
    requires name != "" && user != ""
    ensures var table := [FeeRow(Some(name), None, generic)];
            && name in GetAllFees(table, default, None, [name])
            && name in GetAllFees(table, default, Some(user), [name])
            && GetAllFees(table, default, None, [name])[name] == generic
            && GetAllFees(table, default, Some(user), [name])[name] == default
  {
    var table := [FeeRow(Some(name), None, generic)];
    AllFeesPrecedence(table, default, None, [name], name);
    AllFeesPrecedence(table, default, Some(user), [name], name);
    assert table[..0] == [];
  }

  /** The single lookup finds the row that the table uses. */
  lemma {:induction false} FindOneHasRow(table: seq<FeeRow>, user: Option<string>, name: string) returns (r: FeeRow)
    requires FindOne(table, user, name).Some?
    ensures r in table && r.userPublicKey == user && r.transaction == Some(name)
    ensures FindOne(table, user, name) == Some(r.fee)
  {
    r := table[0];
    if !(r.userPublicKey == user && r.transaction == Some(name)) {
      r := FindOneHasRow(table[1..], user, name);
    }
  }

  lemma {:induction false} FindOneFinds(table: seq<FeeRow>, user: Option<string>, name: string, r: FeeRow)
    requires r in table && r.userPublicKey == user && r.transaction == Some(name)
    ensures FindOne(table, user, name).Some?
  {
    if table[0] != r {
      assert r in table[1..];
      FindOneFinds(table[1..], user, name, r);
    }
  }

  lemma FindOneIsRowFee(table: seq<FeeRow>, user: Option<string>, name: string)
    requires OneRowEach(table) && name != ""
    ensures FindOne(table, user, name) == RowFee(table, user, Some(name))
  {
    if FindOne(table, user, name).Some? {
      var r := FindOneHasRow(table, user, name);
      RowFeeIsRow(table, user, Some(name), r);
    } else if RowFee(table, user, Some(name)).Some? {
      var r := RowFeeHasRow(table, user, Some(name));
      FindOneFinds(table, user, name, r);
    }
  }

  /** For every enabled transaction the table and the single lookup agree exactly when the user has a row for it, or no
      user-wide row, or a user-wide fee equal to the relayer's default; without a user they always agree. */
  lemma TableAgreesWithLookup(table: seq<FeeRow>, default: string, user: Option<string>, names: seq<string>,
                              name: string)
    requires OneRowEach(table) && name in names && name != ""
    ensures name in GetAllFees(table, default, user, names)
    ensures GetAllFees(table, default, user, names)[name] == GetSingleFee(table, default, user, name) <==>
            || !Truthy(user)
            || RowFee(table, user, Some(name)).Some?
            || RowFee(table, user, None).None?
            || RowFee(table, user, None) == Some(default)
  {
    AllFeesPrecedence(table, default, user, names, name);
    FindOneIsRowFee(table, Wanted(user), name);
  }

  // ---- Independence of the row order ----

  /** The table lists the enabled transactions and those the user, or nobody, has a row for. */
  lemma AllFeesLists(table: seq<FeeRow>, default: string, user: Option<string>, names: seq<string>, name: string)
    requires OneRowEach(table) && name != ""
    ensures name in GetAllFees(table, default, user, names) <==>
            name in names || RowFee(table, Wanted(user), Some(name)).Some?
  {
    CollectedForUser(table, Wanted(user), name);
    assert name in CollectAll(RowsFor(table, Wanted(user))).fees <==>
           Get(CollectAll(RowsFor(table, Wanted(user))).fees, name).Some?;
  }

  lemma {:induction false} OnlyNamedFees(rows: seq<FeeRow>)
    ensures "" !in CollectAll(rows).fees
  {
    if rows != [] {
      OnlyNamedFees(rows[..|rows| - 1]);
    }
  }

  lemma SameRowsSameFee(a: seq<FeeRow>, b: seq<FeeRow>, user: Option<string>, transaction: Option<string>)
    requires OneRowEach(a) && OneRowEach(b) && forall r :: r in a <==> r in b
    ensures RowFee(a, user, transaction) == RowFee(b, user, transaction)
  {
    if RowFee(a, user, transaction).Some? {
      var r := RowFeeHasRow(a, user, transaction);
      RowFeeIsRow(b, user, transaction, r);
    } else if RowFee(b, user, transaction).Some? {
      var r := RowFeeHasRow(b, user, transaction);
      RowFeeIsRow(a, user, transaction, r);
    }
  }

  /** The whole table of a user, or of nobody, does not depend on the order in which the rows are stored or found. */
  lemma OrderDoesNotMatter(a: seq<FeeRow>, b: seq<FeeRow>, default: string, user: Option<string>, names: seq<string>)
    requires OneRowEach(a) && OneRowEach(b) && forall r :: r in a <==> r in b
    ensures GetAllFees(a, default, user, names) == GetAllFees(b, default, user, names)
  {
    var who := Wanted(user);
    var x, y := CollectAll(RowsFor(a, who)), CollectAll(RowsFor(b, who));
    CollectedForUser(a, who, "x");
    CollectedForUser(b, who, "x");
    SameRowsSameFee(a, b, who, None);
    OnlyNamedFees(RowsFor(a, who));
    OnlyNamedFees(RowsFor(b, who));
    forall n ensures Get(x.fees, n) == Get(y.fees, n) {
      if n != "" {
        CollectedForUser(a, who, n);
        CollectedForUser(b, who, n);
        SameRowsSameFee(a, b, who, Some(n));
      }
    }
    assert forall n :: n in x.fees <==> Get(x.fees, n).Some?;
    assert forall n :: n in y.fees <==> Get(y.fees, n).Some?;
    assert x.fees.Keys == y.fees.Keys;
  }
}

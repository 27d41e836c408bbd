/** The coin economy: one account row per (guild, user), the transaction
    log, the daily and mining rewards, the item shop and the leaderboard.
    The database tables are records in a `Ledger`; the clock and the random
    multipliers are parameters. */
module Economy {
  import opened Common
  import Sorting

  /** (guild id, user id), the table's unique key. */
  type Key = (int, int)

  /** A row of `user_economy`. `lastDaily` is the stored `last_daily`, in
      seconds on the database's clock. */
  datatype Account = Account(balance: int, totalEarned: int, totalSpent: int,
                             lastDaily: Option<int>, miningPower: int, miningAuto: bool)

  datatype Transaction = Transaction(key: Key, kind: string, amount: int)
  datatype MiningRow = MiningRow(key: Key, amount: int, power: int)
  datatype ItemRow = ItemRow(key: Key, itemId: int, quantity: int)

  datatype Ledger = Ledger(accounts: map<Key, Account>, transactions: seq<Transaction>,
                           mining: seq<MiningRow>, items: seq<ItemRow>)

  /** A row of `shop_items`. */
  datatype ShopItem = ShopItem(id: int, guild: int, name: string, price: int,
                               itemType: string, effect: int, active: bool)

  const StartingBalance: int := 1000

  /** The row `get_user_balance` inserts, with the table's defaults for the
      columns it does not name. */
  const NewAccount: Account := Account(StartingBalance, StartingBalance, 0, None, 1, false)

  /** The bookkeeping identity of an account. */
  predicate Balanced(a: Account) {
    a.balance == a.totalEarned - a.totalSpent
  }

  /** An account balances and is not overdrawn. */
  predicate AccountOk(a: Account) {
    Balanced(a) && a.balance >= 0
  }

  predicate AllOk(m: map<Key, Account>) {
    forall a :: a in m.Values ==> AccountOk(a)
  }

  /** Every account is in order. */
  predicate Sound(l: Ledger) {
    AllOk(l.accounts)
  }

  lemma AllOkUpdate(m: map<Key, Account>, k: Key, a: Account)
    requires AllOk(m) && AccountOk(a)
    ensures AllOk(m[k := a])
  {
  }

  lemma AllOkAt(m: map<Key, Account>, k: Key)
    requires AllOk(m) && k in m
    ensures AccountOk(m[k])
  {
    assert m[k] in m.Values;
  }

  lemma NewAccountSound()
    ensures AccountOk(NewAccount)
    ensures Sound(Ledger(map[], [], [], []))
  {
  }

  /** The ledger after `get_user_balance` has made sure the row exists. */
  function WithAccount(l: Ledger, k: Key): (r: Ledger)
    ensures k in r.accounts
    ensures k in l.accounts ==> r == l
    ensures k !in l.accounts ==> r.accounts == l.accounts[k := NewAccount]
    ensures r.transactions == l.transactions && r.mining == l.mining && r.items == l.items
  {
    if k in l.accounts then l else l.(accounts := l.accounts[k := NewAccount])
  }

  /** `get_user_balance`: the balance, a new account starting at 1000. */
  function GetUserBalance(l: Ledger, k: Key): (r: (Ledger, int))
    ensures r.0 == WithAccount(l, k)
    ensures r.1 == (if k in l.accounts then l.accounts[k].balance else StartingBalance)
  {
    var l1 := WithAccount(l, k);
    (l1, l1.accounts[k].balance)
  }

  /** Creating an account keeps the ledger sound. */
  lemma WithAccountSound(l: Ledger, k: Key)
    requires Sound(l)
    ensures Sound(WithAccount(l, k))
  {
  }

  function Max0(x: int): nat { if x > 0 then x else 0 }

  /** The row after a balance change of `amount`: a credit is added to
      the total earned, a debit to the total spent. */
  function Moved(a: Account, amount: int): (r: Account)
    ensures r.balance == a.balance + amount
    ensures r.totalEarned - r.totalSpent - r.balance == a.totalEarned - a.totalSpent - a.balance
    ensures r.totalEarned >= a.totalEarned && r.totalSpent >= a.totalSpent
    ensures amount >= 0 ==> r.totalSpent == a.totalSpent
    ensures amount <= 0 ==> r.totalEarned == a.totalEarned
    ensures r.lastDaily == a.lastDaily && r.miningPower == a.miningPower && r.miningAuto == a.miningAuto
  {
    a.(balance := a.balance + amount,
       totalEarned := a.totalEarned + Max0(amount),
       totalSpent := a.totalSpent + Max0(-amount))
  }

  /** A balance change that does not overdraw keeps an account in order. */
  lemma MovedOk(a: Account, amount: int)
    requires AccountOk(a) && a.balance + amount >= 0
    ensures AccountOk(Moved(a, amount))
  {
  }

  /** `update_balance`: after making sure the row exists, refuses a change
      that would overdraw the account (returning `None`, with only the
      creation done); otherwise moves the balance and logs the
      transaction. Returns the new balance. */
  function UpdateBalance(l: Ledger, k: Key, amount: int, kind: string): (r: (Ledger, Option<int>))
    ensures var l1 := WithAccount(l, k);
      var a := l1.accounts[k];
      && (r.1.None? <==> a.balance + amount < 0)
      && (r.1.None? ==> r.0 == l1)
      && (r.1.Some? ==> (
        && r.1.value == a.balance + amount >= 0
        && r.0.accounts == l1.accounts[k := Moved(a, amount)]
        && r.0.transactions == l.transactions + [Transaction(k, kind, amount)]
        && r.0.mining == l.mining && r.0.items == l.items))
  {
    var l1 := WithAccount(l, k);
    var a := l1.accounts[k];
    var newBalance := a.balance + amount;
    if newBalance < 0 then (l1, None)
    else
      (l1.(accounts := l1.accounts[k := Moved(a, amount)],
           transactions := l1.transactions + [Transaction(k, kind, amount)]), Some(newBalance))
  }

  /** The identity `balance == earned - spent` and a non-negative balance
      hold for new accounts and survive every balance update. */
  lemma UpdateBalanceSound(l: Ledger, k: Key, amount: int, kind: string)
    requires Sound(l)
    ensures Sound(UpdateBalance(l, k, amount, kind).0)
  {
    WithAccountSound(l, k);
    MoveSound(WithAccount(l, k).accounts, k, amount);
  }

  /** The map-level step of `UpdateBalanceSound`. */
  lemma MoveSound(m: map<Key, Account>, k: Key, amount: int)
    requires AllOk(m) && k in m
    ensures m[k].balance + amount >= 0 ==> AllOk(m[k := Moved(m[k], amount)])
  {
    if m[k].balance + amount >= 0 {
      MovedOk(m[k], amount);
      AllOkUpdate(m, k, Moved(m[k], amount));
    }
  }

  /** A credit never fails on a sound ledger. */
  lemma CreditSucceeds(l: Ledger, k: Key, amount: int, kind: string)
    requires Sound(l) && amount >= 0
    ensures UpdateBalance(l, k, amount, kind).1.Some?
  {
    WithAccountSound(l, k);
    AllOkAt(WithAccount(l, k).accounts, k);
  }

  /** Paying an amount back restores the balance, while both running
      totals record the round trip. */
  lemma CreditThenDebit(l: Ledger, k: Key, amount: nat)
    ensures var (l1, r1) := UpdateBalance(l, k, amount, "credit");
      var (l2, r2) := UpdateBalance(l1, k, -(amount as int), "debit");
      var a := WithAccount(l, k).accounts[k];
      a.balance >= 0 ==> (
        && r1.Some? && r2 == Some(a.balance)
        && l2.accounts[k] == a.(totalEarned := a.totalEarned + amount, totalSpent := a.totalSpent + amount)
        && l2.transactions == l.transactions + [Transaction(k, "credit", amount), Transaction(k, "debit", -(amount as int))])
  {
  }

  // ---------------------------------------------------------------------
  // Daily reward
  // ---------------------------------------------------------------------

  /** `timedelta(hours=20)` in seconds. */
  const DailyCooldown: int := 20 * 3600

  datatype DailyOutcome = Cooldown(remaining: int) | Claimed(amount: int, newBalance: int) | DailyFailed

  /** `int(1000 * random.uniform(1.0, 2.5))` */
  function DailyAmount(multiplier: real): (n: int)
    requires 1.0 <= multiplier <= 2.5
    ensures 1000 <= n <= 2500
  {
    Trunc(1000.0 * multiplier)
  }

  /** `daily_reward` as written: the stored `last_daily` is the database's
      `CURRENT_TIMESTAMP`, which is UTC, while the cooldown compares it
      with `datetime.now()`, the host's local time. `nowUtc` is the
      instant in UTC seconds and `offset` the host's offset from UTC. */
  function DailyRewardAsWritten(l: Ledger, k: Key, nowUtc: int, offset: int, multiplier: real): (r: (Ledger, DailyOutcome))
    requires 1.0 <= multiplier <= 2.5
    ensures r.1.Cooldown? <==> k in l.accounts && l.accounts[k].lastDaily.Some?
                                && nowUtc + offset - l.accounts[k].lastDaily.value < DailyCooldown
    ensures r.1.Cooldown? ==> r.0 == l && r.1.remaining > 0
    ensures r.1.Claimed? ==> (
      && 1000 <= r.1.amount <= 2500
      && k in r.0.accounts && r.0.accounts[k].lastDaily == Some(nowUtc)
      && k in r.0.accounts && r.0.accounts[k].balance == r.1.newBalance == WithAccount(l, k).accounts[k].balance + r.1.amount)
  {
    var localNow := nowUtc + offset;
    if k in l.accounts && l.accounts[k].lastDaily.Some? && localNow - l.accounts[k].lastDaily.value < DailyCooldown then
      (l, Cooldown(DailyCooldown - (localNow - l.accounts[k].lastDaily.value)))
    else
      var amount := DailyAmount(multiplier);
      var (l1, res) := UpdateBalance(l, k, amount, "daily");
      if res.None? then (l1, DailyFailed)
      else
        var a := l1.accounts[k];
        (l1.(accounts := l1.accounts[k := a.(lastDaily := Some(nowUtc))]), Claimed(amount, res.value))
  }

  /** On a host nine hours ahead of UTC (Japan), a new account claims at
      midnight UTC and claims again eleven hours later. */
  lemma DailyCooldownShortOnJapaneseHost()
    ensures var k := (1, 2);
      var (l1, first) := DailyRewardAsWritten(Ledger(map[], [], [], []), k, 0, 9 * 3600, 1.0);
      var (l2, second) := DailyRewardAsWritten(l1, k, 11 * 3600, 9 * 3600, 1.0);
      first.Claimed? && second.Claimed?
  {
    var k := (1, 2);
    var l0 := Ledger(map[], [], [], []);
    assert DailyAmount(1.0) == 1000;
    var (l1, first) := DailyRewardAsWritten(l0, k, 0, 9 * 3600, 1.0);
    assert first == Claimed(1000, 2000);
    assert l1.accounts[k].balance == 2000 && l1.accounts[k].lastDaily == Some(0);
    var (l2, second) := DailyRewardAsWritten(l1, k, 11 * 3600, 9 * 3600, 1.0);
    assert second == Claimed(1000, 3000);
  }

  /** `daily_reward` with the cooldown measured on one clock (`now` and
      the stored claim time both in UTC), so that a claim waits the 20
      hours the method's own cooldown comment states. */
  function DailyReward(l: Ledger, k: Key, now: int, multiplier: real): (r: (Ledger, DailyOutcome))
    requires 1.0 <= multiplier <= 2.5
    ensures r.1.Cooldown? <==> k in l.accounts && l.accounts[k].lastDaily.Some?
                                && now - l.accounts[k].lastDaily.value < DailyCooldown
    ensures r.1.Cooldown? ==> r.0 == l && 0 < r.1.remaining
    ensures r.1.Claimed? ==> 1000 <= r.1.amount <= 2500
  {
    DailyRewardAsWritten(l, k, now, 0, multiplier)
  }

  /** Two successful claims by one account are at least 20 hours apart. */
  lemma DailyClaimsTwentyHoursApart(l: Ledger, k: Key, t1: int, t2: int, m1: real, m2: real)
    requires 1.0 <= m1 <= 2.5 && 1.0 <= m2 <= 2.5
    requires DailyReward(l, k, t1, m1).1.Claimed?
    requires DailyReward(DailyReward(l, k, t1, m1).0, k, t2, m2).1.Claimed?
    ensures t2 - t1 >= DailyCooldown
  {
  }

  /** On a sound ledger a claim outside the cooldown always succeeds and
      keeps the ledger sound. */
  lemma DailyRewardSound(l: Ledger, k: Key, now: int, multiplier: real)
    requires 1.0 <= multiplier <= 2.5
    requires Sound(l)
    ensures !DailyReward(l, k, now, multiplier).1.DailyFailed?
    ensures Sound(DailyReward(l, k, now, multiplier).0)
  {
    var amount := DailyAmount(multiplier);
    CreditSucceeds(l, k, amount, "daily");
    UpdateBalanceSound(l, k, amount, "daily");
    var l1 := UpdateBalance(l, k, amount, "daily").0;
    if !(k in l.accounts && l.accounts[k].lastDaily.Some? && now - l.accounts[k].lastDaily.value < DailyCooldown) {
      AllOkAt(l1.accounts, k);
      AllOkUpdate(l1.accounts, k, l1.accounts[k].(lastDaily := Some(now)));
    }
  }

  // ---------------------------------------------------------------------
  // Mining
  // ---------------------------------------------------------------------

  const MiningBaseReward: int := 50

  datatype MiningOutcome = Mined(amount: int, power: int, newBalance: int) | MiningFailed

  lemma MulMonotone(y: real, a: real, b: real)
    requires y >= 0.0 && a <= b
    ensures y * a <= y * b
  {
  }

  lemma TruncBetween(x: real, lo: int, hi: int)
    requires 0 <= lo && lo as real <= x <= hi as real
    ensures lo <= Trunc(x) <= hi
  {
  }

  lemma MiningRewardBounds(power: int, variance: real)
    requires 0.7 <= variance <= 1.3
    ensures power >= 0 ==> 35 * power <= Trunc((MiningBaseReward * power) as real * variance) <= 65 * power
  {
    if power >= 0 {
      var y := (MiningBaseReward * power) as real;
      ScaledBounds(power, variance);
      TruncBetween(y * variance, 35 * power, 65 * power);
    }
  }

  /** `50 * power` scaled by a factor in 0.7..1.3 lies between 35 and 65
      times the power. */
  lemma ScaledBounds(power: int, variance: real)
    requires power >= 0 && 0.7 <= variance <= 1.3
    ensures (35 * power) as real <= (MiningBaseReward * power) as real * variance <= (65 * power) as real
  {
    ScaledLower(power, variance);
    ScaledUpper(power, variance);
  }

  lemma ScaledLower(power: int, variance: real)
    requires power >= 0 && 0.7 <= variance
    ensures (35 * power) as real <= (MiningBaseReward * power) as real * variance
  {
    var y := (MiningBaseReward * power) as real;
    MulMonotone(y, 0.7, variance);
    assert y * 0.7 == (35 * power) as real;
  }

  lemma ScaledUpper(power: int, variance: real)
    requires power >= 0 && variance <= 1.3
    ensures (MiningBaseReward * power) as real * variance <= (65 * power) as real
  {
    var y := (MiningBaseReward * power) as real;
    MulMonotone(y, variance, 1.3);
    assert y * 1.3 == (65 * power) as real;
  }

  /** `int(50 * power * variance)` with `variance` from
      `random.uniform(0.7, 1.3)`: between 35 and 65 coins per unit of
      mining power. */
  function MiningAmount(power: int, variance: real): (n: int)
    requires 0.7 <= variance <= 1.3
    ensures power >= 0 ==> 35 * power <= n <= 65 * power
  {
    MiningRewardBounds(power, variance);
    Trunc((MiningBaseReward * power) as real * variance)
  }

  /** `mining_reward`: power 1 without an account row; a successful credit
      is also logged in the mining history. */
  function MiningReward(l: Ledger, k: Key, variance: real): (r: (Ledger, MiningOutcome))
    requires 0.7 <= variance <= 1.3
    ensures r.1.Mined? ==> r.1.power == (if k in l.accounts then l.accounts[k].miningPower else 1)
    ensures r.1.Mined? && r.1.power >= 0 ==> 35 * r.1.power <= r.1.amount <= 65 * r.1.power
    ensures r.1.Mined? ==> k in r.0.accounts && r.0.accounts[k].balance == r.1.newBalance
                           == WithAccount(l, k).accounts[k].balance + r.1.amount
    ensures r.1.Mined? ==> r.0.mining == l.mining + [MiningRow(k, r.1.amount, r.1.power)]
    ensures r.1.Mined? ==> r.0.transactions == l.transactions + [Transaction(k, "mining", r.1.amount)]
    ensures r.1.MiningFailed? ==> r.0.mining == l.mining
    ensures forall j :: j in l.accounts && j != k ==> j in r.0.accounts && r.0.accounts[j] == l.accounts[j]
  {
    var power := if k in l.accounts then l.accounts[k].miningPower else 1;
    var reward := MiningAmount(power, variance);
    var (l1, res) := UpdateBalance(l, k, reward, "mining");
    if res.None? then (l1, MiningFailed)
    else (l1.(mining := l1.mining + [MiningRow(k, reward, power)]), Mined(reward, power, res.value))
  }

  /** With a non-negative mining power, mining never fails on a sound
      ledger. */
  lemma MiningSucceeds(l: Ledger, k: Key, variance: real)
    requires 0.7 <= variance <= 1.3
    requires Sound(l)
    requires k in l.accounts ==> l.accounts[k].miningPower >= 0
    ensures MiningReward(l, k, variance).1.Mined?
    ensures Sound(MiningReward(l, k, variance).0)
  {
    var power := if k in l.accounts then l.accounts[k].miningPower else 1;
    var reward := MiningAmount(power, variance);
    CreditSucceeds(l, k, reward, "mining");
    UpdateBalanceSound(l, k, reward, "mining");
    var l1 := UpdateBalance(l, k, reward, "mining").0;
    assert MiningReward(l, k, variance).0.accounts == l1.accounts;
  }

  // ---------------------------------------------------------------------
  // Shop
  // ---------------------------------------------------------------------

  datatype BuyOutcome = ItemNotFound | CannotAfford(price: int) | Bought(item: ShopItem, newBalance: int) | BuyFailed

  /** `SELECT ... WHERE id = ? AND guild_id = ? AND is_active = 1` */
  function FindItem(shop: seq<ShopItem>, guild: int, id: int): (r: Option<ShopItem>)
    ensures r.None? <==> forall i :: 0 <= i < |shop| ==> !(shop[i].id == id && shop[i].guild == guild && shop[i].active)
    ensures r.Some? ==> r.value in shop && r.value.id == id && r.value.guild == guild && r.value.active
  {
    if shop == [] then None
    else if shop[0].id == id && shop[0].guild == guild && shop[0].active then Some(shop[0])
    else
      var r := FindItem(shop[1..], guild, id);
      assert forall i :: 1 <= i < |shop| ==> shop[i] == shop[1..][i - 1];
      r
  }

  /** The item's effect on the buyer's row. */
  function ApplyEffect(a: Account, item: ShopItem): Account {
    if item.itemType == "mining_power" then a.(miningPower := a.miningPower + item.effect)
    else if item.itemType == "mining_auto" then a.(miningAuto := true)
    else a
  }

  /** `buy_item`: an unknown or inactive item changes nothing; a buyer who
      cannot pay gets only the account creation; otherwise the price is
      debited, the effect applied and the purchase recorded. */
  function BuyItem(l: Ledger, shop: seq<ShopItem>, k: Key, itemId: int): (r: (Ledger, BuyOutcome))
    ensures r.1.ItemNotFound? <==> FindItem(shop, k.0, itemId).None?
    ensures r.1.ItemNotFound? ==> r.0 == l
    ensures r.1.CannotAfford? ==> (r.0 == WithAccount(l, k)
                                   && WithAccount(l, k).accounts[k].balance < r.1.price)
    ensures r.1.Bought? ==> (
      var a := WithAccount(l, k).accounts[k];
      && FindItem(shop, k.0, itemId) == Some(r.1.item)
      && a.balance >= r.1.item.price
      && r.1.newBalance == a.balance - r.1.item.price
      && k in r.0.accounts && r.0.accounts[k].balance == r.1.newBalance
      && r.0.items == l.items + [ItemRow(k, itemId, 1)]
      && r.0.transactions == l.transactions + [Transaction(k, "purchase", -r.1.item.price)])
    ensures r.1.Bought? ==> (
      var a := WithAccount(l, k).accounts[k];
      && r.0.accounts[k].miningPower
         == a.miningPower + (if r.1.item.itemType == "mining_power" then r.1.item.effect else 0)
      && r.0.accounts[k].miningAuto == (a.miningAuto || r.1.item.itemType == "mining_auto"))
    ensures forall j :: j in l.accounts && j != k ==> j in r.0.accounts && r.0.accounts[j] == l.accounts[j]
    ensures !r.1.BuyFailed?
  {
    match FindItem(shop, k.0, itemId)
    case None => (l, ItemNotFound)
    case Some(item) =>
      var (l1, balance) := GetUserBalance(l, k);
      if balance < item.price then (l1, CannotAfford(item.price))
      else
        var (l2, res) := UpdateBalance(l1, k, -item.price, "purchase");
        if res.None? then (l2, BuyFailed)
        else
          var a := ApplyEffect(l2.accounts[k], item);
          (l2.(accounts := l2.accounts[k := a], items := l2.items + [ItemRow(k, itemId, 1)]), Bought(item, res.value))
  }

  /** Buying keeps the ledger sound. */
  lemma BuyItemSound(l: Ledger, shop: seq<ShopItem>, k: Key, itemId: int)
    requires Sound(l)
    ensures Sound(BuyItem(l, shop, k, itemId).0)
  {
    WithAccountSound(l, k);
    var l1 := WithAccount(l, k);
    if FindItem(shop, k.0, itemId).Some? && l1.accounts[k].balance >= FindItem(shop, k.0, itemId).value.price {
      PurchaseSound(l, shop, k, itemId);
    }
  }

  /** The paying branch of `BuyItemSound`. */
  lemma PurchaseSound(l: Ledger, shop: seq<ShopItem>, k: Key, itemId: int)
    requires Sound(WithAccount(l, k))
    requires FindItem(shop, k.0, itemId).Some?
    requires WithAccount(l, k).accounts[k].balance >= FindItem(shop, k.0, itemId).value.price
    ensures Sound(BuyItem(l, shop, k, itemId).0)
  {
    var l1 := WithAccount(l, k);
    var item := FindItem(shop, k.0, itemId).value;
    assert WithAccount(l1, k) == l1;
    UpdateBalanceSound(l1, k, -item.price, "purchase");
    var l2 := UpdateBalance(l1, k, -item.price, "purchase").0;
    EffectSound(l2.accounts, k, item);
    assert BuyItem(l, shop, k, itemId).0.accounts == l2.accounts[k := ApplyEffect(l2.accounts[k], item)];
  }

  lemma EffectSound(m: map<Key, Account>, k: Key, item: ShopItem)
    requires AllOk(m) && k in m
    ensures AllOk(m[k := ApplyEffect(m[k], item)])
  {
    AllOkAt(m, k);
    AllOkUpdate(m, k, ApplyEffect(m[k], item));
  }

  function NegPrice(it: ShopItem): int { -it.price }

  /** The guild's active items, as `WHERE guild_id = ? AND is_active = 1`. */
  function ActiveItems(shop: seq<ShopItem>, guild: int): (r: seq<ShopItem>)
    ensures forall i :: 0 <= i < |r| ==> r[i].guild == guild && r[i].active
    ensures forall it :: it in shop && it.guild == guild && it.active ==> it in r
    ensures multiset(r) <= multiset(shop)
  {
    if shop == [] then []
    else
      assert shop == [shop[0]] + shop[1..];
      (if shop[0].guild == guild && shop[0].active then [shop[0]] else []) + ActiveItems(shop[1..], guild)
  }

  /** `get_shop_items`: the guild's active items by ascending price. Rows of
      equal price keep their table order. */
  function GetShopItems(shop: seq<ShopItem>, guild: int): (r: seq<ShopItem>)
    ensures multiset(r) == multiset(ActiveItems(shop, guild))
  {
    Sorting.SortDesc(ActiveItems(shop, guild), NegPrice)
  }

  lemma ShopItemsAscending(shop: seq<ShopItem>, guild: int)
    ensures var r := GetShopItems(shop, guild);
      forall i, j :: 0 <= i < j < |r| ==> r[i].price <= r[j].price
  {
    Sorting.SortDescSorted(ActiveItems(shop, guild), NegPrice);
    var r := GetShopItems(shop, guild);
    assert forall i, j :: 0 <= i < j < |r| ==> NegPrice(r[i]) >= NegPrice(r[j]);
  }

  // ---------------------------------------------------------------------
  // Leaderboard
  // ---------------------------------------------------------------------

  datatype LeaderRow = LeaderRow(user: int, balance: int, totalEarned: int, miningPower: int)

  function RowBalance(r: LeaderRow): int { r.balance }

  /** The leaderboard columns of one account row. */
  function RowOf(l: Ledger, k: Key): LeaderRow
    requires k in l.accounts
  {
    var a := l.accounts[k];
    LeaderRow(k.1, a.balance, a.totalEarned, a.miningPower)
  }

  /** `order` is an order of the whole table: every account exactly once. */
  predicate TableOrder(l: Ledger, order: seq<Key>) {
    && (forall i, j :: 0 <= i < j < |order| ==> order[i] != order[j])
    && (forall i :: 0 <= i < |order| ==> order[i] in l.accounts)
    && (forall k :: k in l.accounts ==> k in order)
  }

  /** The rows of one guild, in the table order `order` of the keys. */
  function GuildRows(l: Ledger, guild: int, order: seq<Key>): (r: seq<LeaderRow>)
    requires forall i :: 0 <= i < |order| ==> order[i] in l.accounts
    ensures |r| <= |order|
  {
    if order == [] then []
    else
      var k := order[0];
      var rest := GuildRows(l, guild, order[1..]);
      if k.0 == guild then [RowOf(l, k)] + rest else rest
  }

  /** No user has two rows. */
  predicate UsersDistinct(rows: seq<LeaderRow>) {
    forall i, j :: 0 <= i < j < |rows| ==> rows[i].user != rows[j].user
  }

  /** `x` is the row of a key of the guild listed in `order`. */
  predicate RowOfGuildKey(l: Ledger, guild: int, order: seq<Key>, x: LeaderRow) {
    exists k :: k in order && k in l.accounts && k.0 == guild && x == RowOf(l, k)
  }

  /** Each row is the row of a key of the guild in `order`. */
  lemma {:induction false} GuildRowsFromKeys(l: Ledger, guild: int, order: seq<Key>)
    requires forall i :: 0 <= i < |order| ==> order[i] in l.accounts
    ensures forall x :: x in GuildRows(l, guild, order) ==> RowOfGuildKey(l, guild, order, x)
  {
    if order != [] {
      var rest := GuildRows(l, guild, order[1..]);
      GuildRowsFromKeys(l, guild, order[1..]);
      forall x | x in GuildRows(l, guild, order)
        ensures RowOfGuildKey(l, guild, order, x)
      {
        if order[0].0 == guild && x == RowOf(l, order[0]) {
          assert order[0] in order;
        } else {
          assert x in rest;
          assert RowOfGuildKey(l, guild, order[1..], x);
          var k :| k in order[1..] && k in l.accounts && k.0 == guild && x == RowOf(l, k);
          assert k in order;
        }
      }
    }
  }

  /** Every key of the guild in `order` gives its row. */
  lemma {:induction false} GuildRowsComplete(l: Ledger, guild: int, order: seq<Key>)
    requires forall i :: 0 <= i < |order| ==> order[i] in l.accounts
    ensures var r := GuildRows(l, guild, order);
      forall k :: k in order && k.0 == guild ==> RowOf(l, k) in r
  {
    if order != [] {
      GuildRowsComplete(l, guild, order[1..]);
      assert forall k :: k in order ==> k == order[0] || k in order[1..];
    }
  }

  /** With no key repeated in `order`, no user is listed twice. */
  lemma {:induction false} GuildRowsDistinct(l: Ledger, guild: int, order: seq<Key>)
    requires forall i :: 0 <= i < |order| ==> order[i] in l.accounts
    requires forall i, j :: 0 <= i < j < |order| ==> order[i] != order[j]
    ensures UsersDistinct(GuildRows(l, guild, order))
  {
    if order != [] {
      var k := order[0];
      GuildRowsDistinct(l, guild, order[1..]);
      if k.0 == guild {
        var rest := GuildRows(l, guild, order[1..]);
        GuildRowsFromKeys(l, guild, order[1..]);
        assert k !in order[1..];
        forall x | x in rest
          ensures x.user != k.1
        {
          assert RowOfGuildKey(l, guild, order[1..], x);
          var k' :| k' in order[1..] && k' in l.accounts && k'.0 == guild && x == RowOf(l, k');
        }
        var r := GuildRows(l, guild, order);
        assert r == [RowOf(l, k)] + rest;
        forall i, j | 0 <= i < j < |r|
          ensures r[i].user != r[j].user
        {
          assert r[j] == rest[j - 1];
          if i > 0 {
            assert r[i] == rest[i - 1];
          }
        }
      }
    }
  }

  /** SQL `LIMIT n`, where a negative limit means no limit. */
  function SqlLimit<T>(s: seq<T>, n: int): (r: seq<T>)
    ensures |r| == if n < 0 || n > |s| then |s| else n
    ensures r == s[..|r|]
  {
    if n < 0 || n > |s| then s else s[..n]
  }

  /** `get_leaderboard`: the guild's rows by descending balance, at most
      `limit` of them, no user twice. */
  function GetLeaderboard(l: Ledger, guild: int, order: seq<Key>, limit: int): (r: seq<LeaderRow>)
    requires TableOrder(l, order)
    ensures var all := GuildRows(l, guild, order);
      |r| == if limit < 0 || limit > |all| then |all| else limit
    ensures r == Sorting.SortDesc(GuildRows(l, guild, order), RowBalance)[..|r|]
    ensures UsersDistinct(r)
  {
    var all := GuildRows(l, guild, order);
    var sorted := Sorting.SortDesc(all, RowBalance);
    var r := SqlLimit(sorted, limit);
    assert forall i :: 0 <= i < |r| ==> r[i] == sorted[i];
    GuildRowsDistinct(l, guild, order);
    SortedUsersDistinct(all, sorted);
    r
  }

  /** Below the limit, every account of the guild is on the leaderboard. */
  lemma LeaderboardListsGuild(l: Ledger, guild: int, order: seq<Key>, limit: int)
    requires TableOrder(l, order)
    requires limit < 0 || limit >= |GuildRows(l, guild, order)|
    ensures forall k :: k in l.accounts && k.0 == guild ==> RowOf(l, k) in GetLeaderboard(l, guild, order, limit)
  {
    var all := GuildRows(l, guild, order);
    var sorted := Sorting.SortDesc(all, RowBalance);
    assert GetLeaderboard(l, guild, order, limit) == sorted;
    GuildRowsComplete(l, guild, order);
    SortedKeepsRows(all, sorted);
  }

  lemma SortedKeepsRows(all: seq<LeaderRow>, sorted: seq<LeaderRow>)
    requires multiset(sorted) == multiset(all)
    ensures forall x :: x in all ==> x in sorted
  {
    forall x | x in all
      ensures x in sorted
    {
      assert x in multiset(all);
    }
  }

  /** Sorting keeps the users distinct. */
  lemma SortedUsersDistinct(all: seq<LeaderRow>, sorted: seq<LeaderRow>)
    requires UsersDistinct(all)
    requires sorted == Sorting.SortDesc(all, RowBalance)
    ensures UsersDistinct(sorted)
  {
    forall i, j | 0 <= i < j < |sorted|
      ensures sorted[i].user != sorted[j].user
    {
      if sorted[i] == sorted[j] {
        RepeatCounted(sorted, i, j);
        AtMostOnce(all, sorted[i]);
      } else {
        assert sorted[i] in multiset(all) && sorted[j] in multiset(all);
        var p :| 0 <= p < |all| && all[p] == sorted[i];
        var q :| 0 <= q < |all| && all[q] == sorted[j];
        assert p != q;
      }
    }
  }

  /** A value at two positions is counted at least twice. */
  lemma RepeatCounted<T>(s: seq<T>, i: nat, j: nat)
    requires i < j < |s| && s[i] == s[j]
    ensures multiset(s)[s[i]] >= 2
  {
    assert s == s[..j] + [s[j]] + s[j + 1..];
    assert s[i] in multiset(s[..j]) by {
      assert s[..j][i] == s[i];
    }
  }

  /** Rows of distinct users each occur at most once. */
  lemma {:induction false} AtMostOnce(s: seq<LeaderRow>, x: LeaderRow)
    requires UsersDistinct(s)
    ensures multiset(s)[x] <= 1
  {
    if s != [] {
      assert s == [s[0]] + s[1..];
      AtMostOnce(s[1..], x);
      if s[0] == x {
        assert x !in s[1..];
      }
    }
  }

  /** The leaderboard is ordered by balance and lists the richest rows:
      no row left out has more than any row shown. */
  lemma LeaderboardRanked(l: Ledger, guild: int, order: seq<Key>, limit: int)
    requires TableOrder(l, order)
    ensures var r := GetLeaderboard(l, guild, order, limit);
      var all := Sorting.SortDesc(GuildRows(l, guild, order), RowBalance);
      && (forall i, j :: 0 <= i < j < |r| ==> r[i].balance >= r[j].balance)
      && (forall i, j :: 0 <= i < |r| <= j < |all| ==> r[i].balance >= all[j].balance)
  {
    var all := Sorting.SortDesc(GuildRows(l, guild, order), RowBalance);
    Sorting.SortDescSorted(GuildRows(l, guild, order), RowBalance);
    var r := GetLeaderboard(l, guild, order, limit);
    PrefixRanked(all, |r|);
  }

  /** A prefix of a list sorted by descending balance is sorted, and ranks
      above the rest of the list. */
  lemma PrefixRanked(all: seq<LeaderRow>, n: nat)
    requires Sorting.SortedDesc(all, RowBalance) && n <= |all|
    ensures forall i, j :: 0 <= i < j < n ==> all[..n][i].balance >= all[..n][j].balance
    ensures forall i, j :: 0 <= i < n <= j < |all| ==> all[..n][i].balance >= all[j].balance
  {
    assert forall i, j :: 0 <= i < j < |all| ==> RowBalance(all[i]) >= RowBalance(all[j]);
  }
}

/** The decision logic of the `/pc-shop`, `/pc-assemble` and `/leaderboard`
    commands: what is checked, in which order, and what is bought, built or
    shown. The parts inventory is a map per part kind; the random draws of
    the shop are parameters. */
module PcCommands {
  import opened Common
  import opened PcParts
  import Economy

  // ---------------------------------------------------------------------
  // /pc-shop
  // ---------------------------------------------------------------------

  /** `base_prices`: the price of one part of each kind. */
  function BasePrice(kind: PartKind): (p: nat)
    ensures p > 0
  {
    match kind
    case Gpus => 100000
    case Cpus => 80000
    case Motherboards => 50000
    case Psus => 30000
  }

  datatype ShopOutcome =
    | BadQuantity
    | InsufficientFunds(cost: int, balance: int)
    | Purchased(parts: seq<(string, Spec)>, cost: int, newBalance: int)
    | ShopError      // the generic error reply of the exception handler

  /** The parts of `quantity` draws, one per entry of `draws`. */
  function DrawParts(kind: PartKind, draws: seq<real>): (r: seq<(string, Spec)>)
    requires forall i :: 0 <= i < |draws| ==> 0.0 <= draws[i] < 1.0
    ensures |r| == |draws|
    ensures forall i :: 0 <= i < |r| ==> r[i] in TableOf(kind) && OfKind(kind, r[i].1)
  {
    if draws == [] then []
    else
      var p := GetRandomPart(kind, draws[0]);
      var i :| 0 <= i < |TableOf(kind)| && TableOf(kind)[i] == p;
      [p] + DrawParts(kind, draws[1..])
  }

  /** `pc_shop`: a quantity outside 1..10 is refused before anything else;
      then the account is looked up (and created), a buyer who cannot pay
      the base price times the quantity is refused, and otherwise
      `quantity` parts are drawn and the cost is debited. */
  function PcShop(l: Economy.Ledger, k: Economy.Key, kind: PartKind, quantity: int, draws: seq<real>)
    : (r: (Economy.Ledger, ShopOutcome))
    requires forall i :: 0 <= i < |draws| ==> 0.0 <= draws[i] < 1.0
    requires 1 <= quantity <= 10 ==> quantity <= |draws|
    ensures r.1.BadQuantity? <==> !(1 <= quantity <= 10)
    ensures r.1.BadQuantity? ==> r.0 == l
    ensures r.1.InsufficientFunds? ==> (
      && r.0 == Economy.WithAccount(l, k)
      && r.1.cost == BasePrice(kind) * quantity
      && r.1.balance == Economy.WithAccount(l, k).accounts[k].balance < r.1.cost)
    ensures r.1.Purchased? ==> (
      var before := Economy.WithAccount(l, k).accounts[k].balance;
      && r.1.cost == BasePrice(kind) * quantity
      && |r.1.parts| == quantity
      && (forall i :: 0 <= i < |r.1.parts| ==> r.1.parts[i] in TableOf(kind))
      && before >= r.1.cost
      && r.1.newBalance == before - r.1.cost
      && r.0 == Economy.UpdateBalance(l, k, -r.1.cost, "purchase").0
      && k in r.0.accounts && r.0.accounts[k].balance == r.1.newBalance)
  {
    if !(1 <= quantity <= 10) then (l, BadQuantity)
    else
      var cost := BasePrice(kind) * quantity;
      var l1 := Economy.GetUserBalance(l, k).0;
      var balance := Economy.GetUserBalance(l, k).1;
      if balance < cost then (l1, InsufficientFunds(cost, balance))
      else
        var parts := DrawParts(kind, draws[..quantity]);
        (Economy.UpdateBalance(l1, k, -cost, "purchase").0, Purchased(parts, cost, balance - cost))
  }

  /** `pc_shop` as written: before the debit, each draw calls
      `add_part_to_inventory`, which the economy class does not define, so
      every purchase that passes both checks ends in the exception handler.
      The account lookup has already created the account; nothing is
      debited and no part is delivered. */
  function PcShopAsWritten(l: Economy.Ledger, k: Economy.Key, kind: PartKind, quantity: int)
    : (r: (Economy.Ledger, ShopOutcome))
    ensures !r.1.Purchased?
    ensures r.1.BadQuantity? <==> !(1 <= quantity <= 10)
    ensures r.0 == if 1 <= quantity <= 10 then Economy.WithAccount(l, k) else l
  {
    if !(1 <= quantity <= 10) then (l, BadQuantity)
    else
      var cost := BasePrice(kind) * quantity;
      var l1 := Economy.GetUserBalance(l, k).0;
      var balance := Economy.GetUserBalance(l, k).1;
      if balance < cost then (l1, InsufficientFunds(cost, balance)) else (l1, ShopError)
  }

  /** Every sale of the intended command is an error reply as written, and
      the buyer keeps the balance the sale would have debited. */
  lemma ShopNeverSellsAsWritten(l: Economy.Ledger, k: Economy.Key, kind: PartKind, quantity: int, draws: seq<real>)
    requires forall i :: 0 <= i < |draws| ==> 0.0 <= draws[i] < 1.0
    requires 1 <= quantity <= 10 ==> quantity <= |draws|
    requires PcShop(l, k, kind, quantity, draws).1.Purchased?
    ensures PcShopAsWritten(l, k, kind, quantity).1 == ShopError
    ensures PcShopAsWritten(l, k, kind, quantity).0.accounts[k].balance
         == PcShop(l, k, kind, quantity, draws).1.newBalance + BasePrice(kind) * quantity
  {
  }

  /** The shop either refuses or sells; it never reports a purchase the
      ledger has not recorded, and it keeps the ledger sound. */
  lemma PcShopSound(l: Economy.Ledger, k: Economy.Key, kind: PartKind, quantity: int, draws: seq<real>)
    requires forall i :: 0 <= i < |draws| ==> 0.0 <= draws[i] < 1.0
    requires 1 <= quantity <= 10 ==> quantity <= |draws|
    requires Economy.Sound(l)
    ensures Economy.Sound(PcShop(l, k, kind, quantity, draws).0)
    ensures PcShop(l, k, kind, quantity, draws).1.Purchased? ==>
      PcShop(l, k, kind, quantity, draws).0.transactions
        == l.transactions + [Economy.Transaction(k, "purchase", -(BasePrice(kind) * quantity))]
  {
    Economy.WithAccountSound(l, k);
    Economy.UpdateBalanceSound(l, k, -(BasePrice(kind) * quantity), "purchase");
  }

  // ---------------------------------------------------------------------
  // /pc-assemble
  // ---------------------------------------------------------------------

  /** The `inventory` column: for each part kind, part names with the
      number in stock. */
  type Inventory = map<PartKind, map<string, int>>

  predicate Owns(inv: Inventory, kind: PartKind, name: string) {
    kind in inv && name in inv[kind]
  }

  predicate InStock(inv: Inventory, kind: PartKind, name: string) {
    Owns(inv, kind, name) && inv[kind][name] > 0
  }

  /** The messages of `errors`. `NotEnough` is raised only by the checked
      variant of the command. */
  datatype PartError =
    | NotOwned(kind: PartKind, name: string)
    | OutOfStock(kind: PartKind, name: string)
    | NotEnough(kind: PartKind, name: string, wanted: int, stock: int)

  /** The ownership test for one named part. */
  function CheckPart(inv: Inventory, kind: PartKind, name: string): (r: Option<PartError>)
    ensures r.None? <==> InStock(inv, kind, name)
    ensures r == Some(NotOwned(kind, name)) <==> !Owns(inv, kind, name)
    ensures r == Some(OutOfStock(kind, name)) <==> Owns(inv, kind, name) && !InStock(inv, kind, name)
  {
    if !Owns(inv, kind, name) then Some(NotOwned(kind, name))
    else if inv[kind][name] <= 0 then Some(OutOfStock(kind, name))
    else None
  }

  /** The error for one name, as a list of at most one. */
  function ErrorOf(inv: Inventory, kind: PartKind, name: string): (r: seq<PartError>)
    ensures r == [] <==> InStock(inv, kind, name)
  {
    match CheckPart(inv, kind, name)
    case Some(e) => [e]
    case None => []
  }

  /** The errors for a list of names, in list order. */
  function PartErrors(inv: Inventory, kind: PartKind, names: seq<string>): (r: seq<PartError>)
    ensures r == [] <==> forall i :: 0 <= i < |names| ==> InStock(inv, kind, names[i])
  {
    if names == [] then []
    else
      var rest := PartErrors(inv, kind, names[1..]);
      assert forall i :: 1 <= i < |names| ==> names[i] == names[1..][i - 1];
      ErrorOf(inv, kind, names[0]) + rest
  }

  lemma {:induction false} PartErrorsAppend(inv: Inventory, kind: PartKind, names: seq<string>, n: string)
    ensures PartErrors(inv, kind, names + [n]) == PartErrors(inv, kind, names) + ErrorOf(inv, kind, n)
  {
    var m := names + [n];
    if names == [] {
      assert m == [n] && m[1..] == [];
    } else {
      assert m[0] == names[0] && m[1..] == names[1..] + [n];
      PartErrorsAppend(inv, kind, names[1..], n);
      var first := ErrorOf(inv, kind, names[0]);
      assert PartErrors(inv, kind, m) == first + (PartErrors(inv, kind, names[1..]) + ErrorOf(inv, kind, n));
      assert PartErrors(inv, kind, names) == first + PartErrors(inv, kind, names[1..]);
    }
  }

  /** The quantity of `name` in a GPU list. */
  function QtyOf(d: seq<(string, int)>, name: string): int {
    if d == [] then 0
    else (if d[0].0 == name then d[0].1 else 0) + QtyOf(d[1..], name)
  }

  predicate DistinctNames(d: seq<(string, int)>) {
    forall i, j :: 0 <= i < j < |d| ==> d[i].0 != d[j].0
  }

  /** Every entry of a GPU list was counted at least once. */
  predicate Counted(d: seq<(string, int)>) {
    forall i :: 0 <= i < |d| ==> d[i].1 >= 1
  }

  /** `gpu_dict[name] = gpu_dict.get(name, 0) + 1`: a known name keeps its
      place, a new one is added at the end. */
  function Tally(d: seq<(string, int)>, name: string): (r: seq<(string, int)>)
    ensures QtyOf(r, name) == QtyOf(d, name) + 1
    ensures forall other :: other != name ==> QtyOf(r, other) == QtyOf(d, other)
    ensures GpuCount(r) == GpuCount(d) + 1
    ensures DistinctNames(d) ==> DistinctNames(r)
    ensures forall i :: 0 <= i < |r| ==> r[i].0 == name || r[i] in d
  {
    if d == [] then [(name, 1)]
    else if d[0].0 == name then [(name, d[0].1 + 1)] + d[1..]
    else
      var rest := Tally(d[1..], name);
      assert forall i :: 1 <= i < |d| ==> d[i] == d[1..][i - 1];
      [d[0]] + rest
  }

  lemma {:induction false} TallyCounted(d: seq<(string, int)>, name: string)
    requires Counted(d)
    ensures Counted(Tally(d, name))
  {
    if d != [] && d[0].0 != name {
      TallyCounted(d[1..], name);
    }
  }

  /** The GPU loop of `pc_assemble`: each name in stock is counted, each
      other one adds an error. */
  function GpuPass(inv: Inventory, names: seq<string>): (r: (seq<(string, int)>, seq<PartError>))
    ensures DistinctNames(r.0) && Counted(r.0)
    ensures forall name :: QtyOf(r.0, name) == if InStock(inv, Gpus, name) then multiset(names)[name] else 0
    ensures r.1 == PartErrors(inv, Gpus, names)
  {
    if names == [] then ([], [])
    else
      var front := names[..|names| - 1];
      var n := names[|names| - 1];
      assert names == front + [n];
      PartErrorsAppend(inv, Gpus, front, n);
      var r := GpuPass(inv, front);
      if InStock(inv, Gpus, n) then TallyCounted(r.0, n); (Tally(r.0, n), r.1)
      else (r.0, r.1 + ErrorOf(inv, Gpus, n))
  }

  /** One of the single-part parameters: not given, or checked. */
  function SinglePart(inv: Inventory, kind: PartKind, name: string): (r: (Option<string>, seq<PartError>))
    ensures name == "" ==> r == (None, [])
    ensures name != "" ==> r.1 == PartErrors(inv, kind, [name])
    ensures r.1 == [] <==> (name != "" ==> InStock(inv, kind, name))
    ensures r.0.Some? <==> name != "" && InStock(inv, kind, name)
    ensures r.0.Some? ==> r.0.value == name
  {
    if name == "" then (None, [])
    else match CheckPart(inv, kind, name)
      case Some(e) => (None, [e])
      case None => (Some(name), [])
  }

  /** The GPU names of the `gpu` parameter: split on commas, stripped. */
  function GpuNames(gpu: string): (r: seq<string>)
    ensures |r| == |Split(gpu, ',')|
    ensures forall i :: 0 <= i < |r| ==> r[i] == Strip(Split(gpu, ',')[i])
  {
    var ps := Split(gpu, ',');
    seq(|ps|, i requires 0 <= i < |ps| => Strip(ps[i]))
  }

  datatype AssembleOutcome =
    | Rejected(errors: seq<PartError>)
    | NoParts
    | Invalid(verdict: Verdict)
    | Assembled(build: Build)
    | AssembleError  // the generic error reply of the exception handler

  /** All errors of a request, in the order the command collects them:
      GPUs, CPU, motherboard, PSU. Parameters left out are `""`. */
  function RequestErrors(inv: Inventory, gpu: string, cpu: string, motherboard: string, psu: string)
    : seq<PartError>
  {
    (if gpu == "" then [] else PartErrors(inv, Gpus, GpuNames(gpu)))
    + SinglePart(inv, Cpus, cpu).1
    + SinglePart(inv, Motherboards, motherboard).1
    + SinglePart(inv, Psus, psu).1
  }

  /** Every part named in the request is owned and in stock. */
  predicate AllInStock(inv: Inventory, gpu: string, cpu: string, motherboard: string, psu: string) {
    && (gpu != "" ==> forall i :: 0 <= i < |GpuNames(gpu)| ==> InStock(inv, Gpus, GpuNames(gpu)[i]))
    && (cpu != "" ==> InStock(inv, Cpus, cpu))
    && (motherboard != "" ==> InStock(inv, Motherboards, motherboard))
    && (psu != "" ==> InStock(inv, Psus, psu))
  }

  /** The build the command assembles from the parts that passed. */
  function RequestBuild(inv: Inventory, gpu: string, cpu: string, motherboard: string, psu: string): Build {
    Build(if gpu == "" then [] else GpuPass(inv, GpuNames(gpu)).0,
          SinglePart(inv, Cpus, cpu).0, SinglePart(inv, Motherboards, motherboard).0,
          SinglePart(inv, Psus, psu).0)
  }

  predicate EmptyBuild(b: Build) {
    b.gpus == [] && b.cpu.None? && b.motherboard.None? && b.psu.None?
  }

  /** `pc_assemble` as intended: any error rejects the request, an empty
      build is refused, a build breaking a rule is refused, and a build
      that passes every check is saved (`PcAssembleAsWritten` is the
      command as it runs). A GPU is accepted when at least one is in
      stock, however often the request names it. */
  function PcAssemble(inv: Inventory, gpu: string, cpu: string, motherboard: string, psu: string): (r: AssembleOutcome)
    ensures r.Rejected? <==> !AllInStock(inv, gpu, cpu, motherboard, psu)
    ensures r.Rejected? ==> r.errors == RequestErrors(inv, gpu, cpu, motherboard, psu) && r.errors != []
    ensures r.NoParts? <==> AllInStock(inv, gpu, cpu, motherboard, psu) && gpu == "" && cpu == "" && motherboard == "" && psu == ""
    ensures r.Assembled? <==> && AllInStock(inv, gpu, cpu, motherboard, psu)
                              && !(gpu == "" && cpu == "" && motherboard == "" && psu == "")
                              && IsBuildValid(RequestBuild(inv, gpu, cpu, motherboard, psu)).Valid?
    ensures r.Invalid? ==> r.verdict == IsBuildValid(RequestBuild(inv, gpu, cpu, motherboard, psu)) && !r.verdict.Valid?
    ensures r.Assembled? ==> (
      && r.build == RequestBuild(inv, gpu, cpu, motherboard, psu)
      && IsBuildValid(r.build).Valid?
      && DistinctNames(r.build.gpus)
      && (forall name :: QtyOf(r.build.gpus, name) == if gpu == "" then 0 else multiset(GpuNames(gpu))[name])
      && r.build.cpu == (if cpu == "" then None else Some(cpu))
      && r.build.motherboard == (if motherboard == "" then None else Some(motherboard))
      && r.build.psu == (if psu == "" then None else Some(psu)))
  {
    var errors := RequestErrors(inv, gpu, cpu, motherboard, psu);
    var b := RequestBuild(inv, gpu, cpu, motherboard, psu);
    AssembleFacts(inv, gpu, cpu, motherboard, psu);
    if errors != [] then Rejected(errors)
    else if EmptyBuild(b) then NoParts
    else
      var v := IsBuildValid(b);
      if !v.Valid? then Invalid(v) else Assembled(b)
  }

  /** `pc_assemble` as written: a build that passes every check is handed to
      `update_pc_build`, which the economy class does not define, so it ends
      in the exception handler instead of being saved; every refusal comes
      out as `PcAssemble` gives it. */
  function PcAssembleAsWritten(inv: Inventory, gpu: string, cpu: string, motherboard: string, psu: string)
    : (r: AssembleOutcome)
    ensures !r.Assembled?
    ensures r.AssembleError? <==> PcAssemble(inv, gpu, cpu, motherboard, psu).Assembled?
    ensures !r.AssembleError? ==> r == PcAssemble(inv, gpu, cpu, motherboard, psu)
  {
    var errors := RequestErrors(inv, gpu, cpu, motherboard, psu);
    var b := RequestBuild(inv, gpu, cpu, motherboard, psu);
    if errors != [] then Rejected(errors)
    else if EmptyBuild(b) then NoParts
    else
      var v := IsBuildValid(b);
      if !v.Valid? then Invalid(v) else AssembleError
  }

  /** As written, even a request of parts that are all in stock and form a
      valid build is answered with the error reply. */
  lemma AssembleNeverSavesAsWritten(inv: Inventory, n: string)
    requires n != [] && !IsSpace(n[0]) && !IsSpace(n[|n| - 1]) && ',' !in n
    requires InStock(inv, Gpus, n)
    ensures PcAssemble(inv, n, "", "", "").Assembled?
    ensures PcAssembleAsWritten(inv, n, "", "", "") == AssembleError
  {
    SingleInStock(inv, n);
    UnboundBuildValid(RequestBuild(inv, n, "", "", ""));
  }

  lemma SingleInStock(inv: Inventory, n: string)
    requires n != [] && !IsSpace(n[0]) && !IsSpace(n[|n| - 1]) && ',' !in n
    requires InStock(inv, Gpus, n)
    ensures AllInStock(inv, n, "", "", "")
  {
    GpuNamesSingle(n);
  }

  lemma GpuNamesSingle(n: string)
    requires n != [] && !IsSpace(n[0]) && !IsSpace(n[|n| - 1]) && ',' !in n
    ensures GpuNames(n) == [n]
  {
    SplitFree(n, ',');
    StripUntouched(n);
  }

  /** The facts `PcAssemble`'s contract rests on: the errors are empty
      exactly when every named part is in stock, and the build is empty
      exactly when nothing was named. */
  lemma AssembleFacts(inv: Inventory, gpu: string, cpu: string, motherboard: string, psu: string)
    ensures RequestErrors(inv, gpu, cpu, motherboard, psu) == [] <==> AllInStock(inv, gpu, cpu, motherboard, psu)
    ensures AllInStock(inv, gpu, cpu, motherboard, psu) ==> (
      var b := RequestBuild(inv, gpu, cpu, motherboard, psu);
      && (EmptyBuild(b) <==> gpu == "" && cpu == "" && motherboard == "" && psu == "")
      && (forall name :: QtyOf(b.gpus, name) == if gpu == "" then 0 else multiset(GpuNames(gpu))[name])
      && b.cpu == (if cpu == "" then None else Some(cpu))
      && b.motherboard == (if motherboard == "" then None else Some(motherboard))
      && b.psu == (if psu == "" then None else Some(psu)))
  {
    ErrorsIffInStock(inv, gpu, cpu, motherboard, psu);
    if AllInStock(inv, gpu, cpu, motherboard, psu) && gpu != "" {
      GpuCounts(inv, GpuNames(gpu));
    }
  }

  lemma ErrorsIffInStock(inv: Inventory, gpu: string, cpu: string, motherboard: string, psu: string)
    ensures RequestErrors(inv, gpu, cpu, motherboard, psu) == [] <==> AllInStock(inv, gpu, cpu, motherboard, psu)
  {
    var g := if gpu == "" then [] else PartErrors(inv, Gpus, GpuNames(gpu));
    GpuErrorsIffInStock(inv, gpu);
    var c := SinglePart(inv, Cpus, cpu).1;
    var m := SinglePart(inv, Motherboards, motherboard).1;
    var p := SinglePart(inv, Psus, psu).1;
    assert |g + c + m + p| == |g| + |c| + |m| + |p|;
  }

  lemma GpuErrorsIffInStock(inv: Inventory, gpu: string)
    ensures (if gpu == "" then [] else PartErrors(inv, Gpus, GpuNames(gpu))) == []
        <==> (gpu != "" ==> forall i :: 0 <= i < |GpuNames(gpu)| ==> InStock(inv, Gpus, GpuNames(gpu)[i]))
  {
  }

  /** With every name in stock, the GPU loop counts each name as often as
      it is named, and counts at least one. */
  lemma GpuCounts(inv: Inventory, names: seq<string>)
    requires names != []
    requires forall i :: 0 <= i < |names| ==> InStock(inv, Gpus, names[i])
    ensures GpuPass(inv, names).0 != []
    ensures forall name :: QtyOf(GpuPass(inv, names).0, name) == multiset(names)[name]
  {
    var d := GpuPass(inv, names).0;
    assert InStock(inv, Gpus, names[0]);
    assert names[0] in multiset(names);
    assert QtyOf(d, names[0]) > 0;
    forall name
      ensures QtyOf(d, name) == multiset(names)[name]
    {
      if !InStock(inv, Gpus, name) {
        assert name !in names;
      }
    }
  }

  // ---------------------------------------------------------------------
  // Multiplicity
  // ---------------------------------------------------------------------

  /** Owning one GPU is enough to assemble a build that names it twice. */
  lemma AssembleIgnoresMultiplicity(inv: Inventory, n: string)
    requires n != [] && !IsSpace(n[0]) && !IsSpace(n[|n| - 1]) && ',' !in n
    requires InStock(inv, Gpus, n)
    ensures var r := PcAssemble(inv, n + "," + n, "", "", "");
      r.Assembled? && QtyOf(r.build.gpus, n) == 2
  {
    var gpu := n + "," + n;
    assert gpu != "" by { assert |gpu| == 2 * |n| + 1; }
    PairAssembled(inv, n);
    AssembledQty(inv, gpu, n);
    GpuNamesPair(n);
    MultisetPair(n);
  }

  lemma MultisetPair<T>(x: T)
    ensures multiset([x, x])[x] == 2
  {
    assert [x, x] == [x] + [x];
  }

  lemma AssembledQty(inv: Inventory, gpu: string, name: string)
    requires gpu != ""
    requires PcAssemble(inv, gpu, "", "", "").Assembled?
    ensures QtyOf(PcAssemble(inv, gpu, "", "", "").build.gpus, name) == multiset(GpuNames(gpu))[name]
  {
  }

  lemma PairAssembled(inv: Inventory, n: string)
    requires n != [] && !IsSpace(n[0]) && !IsSpace(n[|n| - 1]) && ',' !in n
    requires InStock(inv, Gpus, n)
    ensures PcAssemble(inv, n + "," + n, "", "", "").Assembled?
  {
    PairInStock(inv, n);
    UnboundBuildValid(RequestBuild(inv, n + "," + n, "", "", ""));
  }

  lemma PairInStock(inv: Inventory, n: string)
    requires n != [] && !IsSpace(n[0]) && !IsSpace(n[|n| - 1]) && ',' !in n
    requires InStock(inv, Gpus, n)
    ensures AllInStock(inv, n + "," + n, "", "", "")
  {
    GpuNamesPair(n);
  }

  /** Without a motherboard and a PSU no rule applies. */
  lemma UnboundBuildValid(b: Build)
    requires b.motherboard.None? && b.psu.None?
    ensures IsBuildValid(b).Valid?
  {
  }

  /** The same with the numbers of the table: one RTX 4090 in stock, two
      in the build. */
  lemma AssembleIgnoresMultiplicityExample()
    ensures var n := "RTX 4090";
      var inv := map[Gpus := map[n := 1]];
      var r := PcAssemble(inv, n + "," + n, "", "", "");
      r.Assembled? && QtyOf(r.build.gpus, n) == 2 > inv[Gpus][n]
  {
    var n := "RTX 4090";
    var inv := map[Gpus := map[n := 1]];
    assert InStock(inv, Gpus, n);
    AssembleIgnoresMultiplicity(inv, n);
  }

  lemma GpuNamesPair(n: string)
    requires n != [] && !IsSpace(n[0]) && !IsSpace(n[|n| - 1]) && ',' !in n
    ensures GpuNames(n + "," + n) == [n, n]
  {
    SplitPair(n, n);
    StripUntouched(n);
  }

  lemma SplitPair(a: string, b: string)
    requires ',' !in a && ',' !in b
    ensures Split(a + "," + b, ',') == [a, b]
  {
    SplitPrefix(a, b, ',');
    SplitFree(b, ',');
  }

  /** The stock check the command evidently intends: every counted GPU
      must be in stock at least as many times as it is named. */
  function ShortGpus(inv: Inventory, d: seq<(string, int)>): (r: seq<PartError>)
    ensures r == [] <==> forall i :: 0 <= i < |d| ==> Owns(inv, Gpus, d[i].0) && d[i].1 <= inv[Gpus][d[i].0]
  {
    if d == [] then []
    else
      var stock := if Owns(inv, Gpus, d[0].0) then inv[Gpus][d[0].0] else 0;
      var here := if Owns(inv, Gpus, d[0].0) && d[0].1 <= stock then [] else [NotEnough(Gpus, d[0].0, d[0].1, stock)];
      var rest := ShortGpus(inv, d[1..]);
      assert forall i :: 1 <= i < |d| ==> d[i] == d[1..][i - 1];
      here + rest
  }

  /** `pc_assemble` with the multiplicity checked: after the GPU loop,
      a GPU named more often than it is in stock is an error too. */
  function PcAssembleChecked(inv: Inventory, gpu: string, cpu: string, motherboard: string, psu: string)
    : (r: AssembleOutcome)
    ensures r.Rejected? <==> !AllInStock(inv, gpu, cpu, motherboard, psu)
                             || ShortGpus(inv, RequestBuild(inv, gpu, cpu, motherboard, psu).gpus) != []
    ensures ShortGpus(inv, RequestBuild(inv, gpu, cpu, motherboard, psu).gpus) == []
            ==> r == PcAssemble(inv, gpu, cpu, motherboard, psu)
    ensures r.Assembled? ==> r.build == RequestBuild(inv, gpu, cpu, motherboard, psu) && IsBuildValid(r.build).Valid?
    ensures r.Assembled? ==> forall name :: QtyOf(r.build.gpus, name) > 0 ==>
                                              Owns(inv, Gpus, name) && QtyOf(r.build.gpus, name) <= inv[Gpus][name]
  {
    var b := RequestBuild(inv, gpu, cpu, motherboard, psu);
    var errors := RequestErrors(inv, gpu, cpu, motherboard, psu) + ShortGpus(inv, b.gpus);
    ErrorsIffInStock(inv, gpu, cpu, motherboard, psu);
    if errors != [] then Rejected(errors)
    else
      CheckedStock(inv, b.gpus);
      if EmptyBuild(b) then NoParts
      else
        var v := IsBuildValid(b);
        if !v.Valid? then Invalid(v) else Assembled(b)
  }

  /** Without stock errors every quantity is within the stock. */
  lemma {:induction false} CheckedStock(inv: Inventory, d: seq<(string, int)>)
    requires DistinctNames(d)
    requires ShortGpus(inv, d) == []
    ensures forall name :: QtyOf(d, name) > 0 ==> Owns(inv, Gpus, name) && QtyOf(d, name) <= inv[Gpus][name]
  {
    if d != [] {
      assert Owns(inv, Gpus, d[0].0) && d[0].1 <= inv[Gpus][d[0].0];
      assert forall i :: 0 <= i < |d[1..]| ==> d[1..][i].0 != d[0].0;
      assert ShortGpus(inv, d[1..]) == [];
      CheckedStock(inv, d[1..]);
      forall name
        ensures QtyOf(d, name) > 0 ==> Owns(inv, Gpus, name) && QtyOf(d, name) <= inv[Gpus][name]
      {
        if name == d[0].0 {
          QtyAbsent(d[1..], name);
        }
      }
    }
  }

  /** The converse: the checked command still assembles, exactly as the
      command as written does, every request whose GPUs are each named at
      most as often as they are in stock. */
  lemma CheckedAcceptsCoveredRequest(inv: Inventory, gpu: string, cpu: string, motherboard: string, psu: string)
    requires AllInStock(inv, gpu, cpu, motherboard, psu)
    requires gpu != "" ==> CoveredByStock(inv, GpuNames(gpu))
    ensures PcAssembleChecked(inv, gpu, cpu, motherboard, psu) == PcAssemble(inv, gpu, cpu, motherboard, psu)
  {
    CoveredRequestNotShort(inv, gpu, cpu, motherboard, psu);
  }

  /** Every name is in stock at least as often as the list names it. */
  predicate CoveredByStock(inv: Inventory, names: seq<string>) {
    forall i :: 0 <= i < |names| ==>
      InStock(inv, Gpus, names[i]) && multiset(names)[names[i]] <= inv[Gpus][names[i]]
  }

  lemma CoveredRequestNotShort(inv: Inventory, gpu: string, cpu: string, motherboard: string, psu: string)
    requires gpu != "" ==> CoveredByStock(inv, GpuNames(gpu))
    ensures ShortGpus(inv, RequestBuild(inv, gpu, cpu, motherboard, psu).gpus) == []
  {
    if gpu != "" {
      var names := GpuNames(gpu);
      CoveredGpus(inv, names, GpuPass(inv, names).0);
    }
    ShortGpusNone(inv, RequestBuild(inv, gpu, cpu, motherboard, psu).gpus);
  }

  /** The counted GPUs of names that are each in stock as often as named
      are all within the stock. */
  lemma CoveredGpus(inv: Inventory, names: seq<string>, d: seq<(string, int)>)
    requires d == GpuPass(inv, names).0
    requires CoveredByStock(inv, names)
    ensures forall i :: 0 <= i < |d| ==> Owns(inv, Gpus, d[i].0) && d[i].1 <= inv[Gpus][d[i].0]
  {
    forall i | 0 <= i < |d| ensures Owns(inv, Gpus, d[i].0) && d[i].1 <= inv[Gpus][d[i].0] {
      QtyAt(d, i);
      var j := NamedAt(names, d[i].0);
      assert InStock(inv, Gpus, names[j]);
    }
  }

  /** A name with a positive multiset count occurs at some index. */
  lemma NamedAt(names: seq<string>, name: string) returns (j: int)
    requires multiset(names)[name] > 0
    ensures 0 <= j < |names| && names[j] == name
  {
    assert name in multiset(names);
    assert name in names;
    j :| 0 <= j < |names| && names[j] == name;
  }

  lemma ShortGpusNone(inv: Inventory, d: seq<(string, int)>)
    requires forall i :: 0 <= i < |d| ==> Owns(inv, Gpus, d[i].0) && d[i].1 <= inv[Gpus][d[i].0]
    ensures ShortGpus(inv, d) == []
  {
  }

  /** In a list of distinct names the entry of a name is its quantity. */
  lemma {:induction false} QtyAt(d: seq<(string, int)>, i: int)
    requires DistinctNames(d) && 0 <= i < |d|
    ensures QtyOf(d, d[i].0) == d[i].1
  {
    if i == 0 {
      QtyAbsent(d[1..], d[0].0);
    } else {
      assert d[1..][i - 1] == d[i];
      QtyAt(d[1..], i - 1);
    }
  }

  /** A name the list does not carry has quantity 0. */
  lemma {:induction false} QtyAbsent(d: seq<(string, int)>, name: string)
    requires forall i :: 0 <= i < |d| ==> d[i].0 != name
    ensures QtyOf(d, name) == 0
  {
    if d != [] {
      QtyAbsent(d[1..], name);
    }
  }

  /** The checked command refuses the request that the one as written
      assembles. */
  lemma CheckedRefusesOverdraw()
    ensures var n := "RTX 4090";
      PcAssembleChecked(map[Gpus := map[n := 1]], n + "," + n, "", "", "").Rejected?
  {
    AssembleIgnoresMultiplicityExample();
  }

  // ---------------------------------------------------------------------
  // /leaderboard
  // ---------------------------------------------------------------------

  /** The rank column: medals for the first three, `"i."` after. */
  function RankLabel(i: int): (s: string)
    ensures i == 1 ==> s == "\U{1F947}"
    ensures i == 2 ==> s == "\U{1F948}"
    ensures i == 3 ==> s == "\U{1F949}"
    ensures !(1 <= i <= 3) ==> s == IntToString(i) + "."
  {
    if i == 1 then "\U{1F947}"
    else if i == 2 then "\U{1F948}"
    else if i == 3 then "\U{1F949}"
    else IntToString(i) + "."
  }

  /** Different ranks get different labels. */
  lemma RankLabelsDistinct(i: int, j: int)
    requires i != j
    ensures RankLabel(i) != RankLabel(j)
  {
    if !(1 <= i <= 3) && !(1 <= j <= 3) {
      var si := IntToString(i);
      var sj := IntToString(j);
      if si + "." == sj + "." {
        assert si == (si + ".")[..|si|];
        assert sj == (sj + ".")[..|sj|];
        assert si == sj;
        ParseIntOfIntToString(i);
        ParseIntOfIntToString(j);
      }
    } else if !(1 <= i <= 3) || !(1 <= j <= 3) {
      var n := if 1 <= i <= 3 then j else i;
      IntToStringShape(n);
      assert |IntToString(n) + "."| >= 2;
    }
  }
}

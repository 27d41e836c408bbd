/** The parts catalogue of the mining game: four tables of parts with their
    mining figures, the rarity-weighted draw, the totals of a build and the
    two rules a build must satisfy. Prices, brands and other display-only
    attributes are not modelled. */
module PcParts {
  import opened Common

  datatype Tier = CommonTier | UncommonTier | RareTier | EpicTier | LegendaryTier

  /** `RARITY_RATES`, in percent. */
  function RarityRate(t: Tier): (w: nat)
    ensures w > 0
  {
    match t
    case CommonTier => 50
    case UncommonTier => 30
    case RareTier => 15
    case EpicTier => 4
    case LegendaryTier => 1
  }

  /** The figures of one part that the game uses. */
  datatype Spec =
    | GpuSpec(hashRate: nat, power: nat, tier: Tier)
    | CpuSpec(hashRate: nat, power: nat, tier: Tier)
    | BoardSpec(maxGpus: nat, tier: Tier)
    | PsuSpec(wattage: nat, tier: Tier)

  /** The attribute names `"gpus"`, `"cpus"`, `"motherboards"`, `"psus"`. */
  datatype PartKind = Gpus | Cpus | Motherboards | Psus

  type Table = seq<(string, Spec)>

  const GpuTable: Table := [
    ("RTX 4090", GpuSpec(120, 450, LegendaryTier)),
    ("RTX 4080", GpuSpec(95, 320, EpicTier)),
    ("RTX 4070 Ti", GpuSpec(75, 285, RareTier)),
    ("RTX 4070", GpuSpec(65, 200, RareTier)),
    ("RTX 4060 Ti", GpuSpec(50, 165, UncommonTier)),
    ("RTX 4060", GpuSpec(40, 115, UncommonTier)),
    ("RTX 3090", GpuSpec(110, 350, LegendaryTier)),
    ("RTX 3080", GpuSpec(85, 320, EpicTier)),
    ("RTX 3070", GpuSpec(70, 220, RareTier)),
    ("RTX 3060 Ti", GpuSpec(60, 200, RareTier)),
    ("RTX 3060", GpuSpec(45, 170, UncommonTier)),
    ("RX 7900 XTX", GpuSpec(105, 355, LegendaryTier)),
    ("RX 7900 XT", GpuSpec(90, 300, EpicTier)),
    ("RX 7800 XT", GpuSpec(75, 263, RareTier)),
    ("RX 7700 XT", GpuSpec(60, 245, RareTier)),
    ("RX 7600", GpuSpec(45, 165, UncommonTier)),
    ("GTX 1660 Super", GpuSpec(30, 125, CommonTier)),
    ("GTX 1650", GpuSpec(18, 75, CommonTier))
  ]

  const CpuTable: Table := [
    ("i9-13900K", CpuSpec(25, 125, LegendaryTier)),
    ("i7-13700K", CpuSpec(20, 125, EpicTier)),
    ("i5-13600K", CpuSpec(15, 125, RareTier)),
    ("Ryzen 9 7950X", CpuSpec(28, 170, LegendaryTier)),
    ("Ryzen 7 7700X", CpuSpec(22, 105, EpicTier)),
    ("Ryzen 5 7600X", CpuSpec(18, 105, RareTier))
  ]

  const BoardTable: Table := [
    ("ASUS ROG MAXIMUS Z790 HERO", BoardSpec(4, LegendaryTier)),
    ("MSI MAG B650 TOMAHAWK", BoardSpec(3, RareTier)),
    ("ASRock B550M PRO4", BoardSpec(2, CommonTier))
  ]

  const PsuTable: Table := [
    ("Corsair AX1600i", PsuSpec(1600, LegendaryTier)),
    ("Seasonic Focus GX-850", PsuSpec(850, RareTier)),
    ("EVGA 600 W1", PsuSpec(600, CommonTier))
  ]

  function TableOf(kind: PartKind): (t: Table)
    ensures |t| > 0
  {
    match kind
    case Gpus => GpuTable
    case Cpus => CpuTable
    case Motherboards => BoardTable
    case Psus => PsuTable
  }

  /** Every entry of a table is of that table's kind. */
  predicate OfKind(kind: PartKind, sp: Spec) {
    match kind
    case Gpus => sp.GpuSpec?
    case Cpus => sp.CpuSpec?
    case Motherboards => sp.BoardSpec?
    case Psus => sp.PsuSpec?
  }

  lemma TablesAreHomogeneous(kind: PartKind, i: int)
    requires 0 <= i < |TableOf(kind)|
    ensures OfKind(kind, TableOf(kind)[i].1)
  {
  }

  /** `name in TABLE` and `TABLE[name]`: the entry named `name`. */
  function Lookup(t: Table, name: string): (r: Option<Spec>)
    ensures r.None? <==> forall i :: 0 <= i < |t| ==> t[i].0 != name
    ensures r.Some? ==> exists i :: 0 <= i < |t| && t[i] == (name, r.value)
  {
    if t == [] then None
    else if t[0].0 == name then Some(t[0].1)
    else
      var r := Lookup(t[1..], name);
      assert r.Some? ==> exists i :: 0 <= i < |t[1..]| && t[1..][i] == (name, r.value);
      assert forall i :: 1 <= i < |t| ==> t[i] == t[1..][i - 1];
      r
  }

  // ---------------------------------------------------------------------
  // Rarity-weighted draw
  // ---------------------------------------------------------------------

  /** The sum of the first `i` weights: `cum_weights[i - 1]` of
      `random.choices`. */
  function Cum(ws: seq<nat>, i: nat): nat
    requires i <= |ws|
  {
    if i == 0 then 0 else Cum(ws, i - 1) + ws[i - 1]
  }

  lemma {:induction false} CumMonotone(ws: seq<nat>, i: nat, j: nat)
    requires i <= j <= |ws|
    ensures Cum(ws, i) <= Cum(ws, j)
    decreases j - i
  {
    if i < j {
      CumMonotone(ws, i, j - 1);
    }
  }

  /** The draw `x` lies at or past the end of index `k`'s slice. */
  predicate Passed(ws: seq<nat>, x: real, k: nat)
    requires k < |ws|
  {
    (Cum(ws, k + 1) as real) <= x
  }

  /** `bisect(cum_weights, x, 0, n - 1)`: the first index below the last
      whose cumulative weight exceeds `x`, or the last index. */
  function PickFrom(ws: seq<nat>, x: real, j: nat): (r: nat)
    requires j < |ws|
    ensures j <= r < |ws|
    ensures forall k :: j <= k < r ==> Passed(ws, x, k)
    ensures r < |ws| - 1 ==> x < Cum(ws, r + 1) as real
    decreases |ws| - j
  {
    if j == |ws| - 1 then j
    else if x < Cum(ws, j + 1) as real then j
    else PickFrom(ws, x, j + 1)
  }

  function Pick(ws: seq<nat>, x: real): (r: nat)
    requires |ws| > 0
    ensures r < |ws|
  {
    PickFrom(ws, x, 0)
  }

  /** With positive weights the draw `x` selects index `j` exactly when it
      falls in `j`'s slice `[cum(j), cum(j + 1))` of the total, the first
      slice extending down and the last one up. */
  lemma PickIff(ws: seq<nat>, x: real, j: nat)
    requires |ws| > 0 && j < |ws|
    requires forall k :: 0 <= k < |ws| ==> ws[k] > 0
    ensures Pick(ws, x) == j <==>
      (j == 0 || Cum(ws, j) as real <= x) && (j == |ws| - 1 || x < Cum(ws, j + 1) as real)
  {
    var r := Pick(ws, x);
    assert r == 0 || Cum(ws, r) as real <= x by {
      if r > 0 {
        assert Passed(ws, x, r - 1);
      }
    }
    if (j == 0 || Cum(ws, j) as real <= x) && (j == |ws| - 1 || x < Cum(ws, j + 1) as real) {
      assert j < r ==> Passed(ws, x, j);
      CumMonotoneAfter(ws, r, j);
    }
  }

  lemma CumMonotoneAfter(ws: seq<nat>, a: nat, b: nat)
    requires a < |ws| && b < |ws|
    ensures a < b ==> Cum(ws, a + 1) <= Cum(ws, b)
  {
    if a < b {
      CumMonotone(ws, a + 1, b);
    }
  }

  function Weights(t: Table): (ws: seq<nat>)
    ensures |ws| == |t|
    ensures forall k :: 0 <= k < |ws| ==> ws[k] == RarityRate(t[k].1.tier) > 0
  {
    seq(|t|, k requires 0 <= k < |t| => RarityRate(t[k].1.tier))
  }

  /** `random() * total`, the point of the cumulative scale drawn. */
  function Scale(u: real, total: nat): real {
    u * total as real
  }

  /** `random.choices(items, weights=weights)[0]` with `u` the
      `random()` value it draws. */
  function Draw(t: Table, u: real): (r: (string, Spec))
    requires |t| > 0 && 0.0 <= u < 1.0
    ensures exists i :: 0 <= i < |t| && t[i] == r
  {
    var ws := Weights(t);
    t[Pick(ws, Scale(u, Cum(ws, |ws|)))]
  }

  /** The `random()` value that lands exactly on `c` of `total`. */
  lemma SliceStart(c: nat, total: nat) returns (u: real)
    requires c < total
    ensures 0.0 <= u < 1.0
    ensures Scale(u, total) == c as real
  {
    u := (c as real) / (total as real);
  }

  /** With positive weights, a draw at the start of index `i`'s slice
      picks `i`. */
  lemma PickAtSliceStart(ws: seq<nat>, i: nat)
    requires i < |ws|
    requires forall k :: 0 <= k < |ws| ==> ws[k] > 0
    ensures Cum(ws, i) < Cum(ws, |ws|)
    ensures Pick(ws, Cum(ws, i) as real) == i
  {
    CumMonotone(ws, i + 1, |ws|);
    PickIff(ws, Cum(ws, i) as real, i);
    if i < |ws| - 1 {
      assert Cum(ws, i + 1) == Cum(ws, i) + ws[i];
    }
  }

  /** Every entry can be drawn: the `random()` value at the start of its
      slice, `cum(i) / total`, draws it. */
  lemma EveryEntryCanBeDrawn(t: Table, i: nat)
    requires i < |t|
    ensures exists u :: 0.0 <= u < 1.0 && Draw(t, u) == t[i]
  {
    var ws := Weights(t);
    PickAtSliceStart(ws, i);
    var u := SliceStart(Cum(ws, i), Cum(ws, |ws|));
    assert Draw(t, u) == t[Pick(ws, Cum(ws, i) as real)];
  }

  /** `get_random_part`: a rarity-weighted draw from the table of `kind`. */
  function GetRandomPart(kind: PartKind, u: real): (r: (string, Spec))
    requires 0.0 <= u < 1.0
    ensures exists i :: 0 <= i < |TableOf(kind)| && TableOf(kind)[i] == r
    ensures OfKind(kind, r.1)
  {
    var r := Draw(TableOf(kind), u);
    var i :| 0 <= i < |TableOf(kind)| && TableOf(kind)[i] == r;
    TablesAreHomogeneous(kind, i);
    r
  }

  /** Every part of every table can come out of the shop. */
  lemma EveryPartCanBeDrawn(kind: PartKind, i: nat)
    requires i < |TableOf(kind)|
    ensures exists u :: 0.0 <= u < 1.0 && GetRandomPart(kind, u) == TableOf(kind)[i]
  {
    EveryEntryCanBeDrawn(TableOf(kind), i);
    var u :| 0.0 <= u < 1.0 && Draw(TableOf(kind), u) == TableOf(kind)[i];
    assert GetRandomPart(kind, u) == Draw(TableOf(kind), u);
  }

  /** A name found in a table is of that table's kind. */
  lemma LookupOfKind(kind: PartKind, name: string)
    ensures Lookup(TableOf(kind), name).Some? ==> OfKind(kind, Lookup(TableOf(kind), name).value)
  {
    if Lookup(TableOf(kind), name).Some? {
      var i :| 0 <= i < |TableOf(kind)| && TableOf(kind)[i] == (name, Lookup(TableOf(kind), name).value);
      TablesAreHomogeneous(kind, i);
    }
  }

  // ---------------------------------------------------------------------
  // Builds
  // ---------------------------------------------------------------------

  /** A build (`user_parts`): GPU names with quantities (an absent `"gpus"`
      entry is the empty list), and optionally one CPU, motherboard and PSU. */
  datatype Build = Build(gpus: seq<(string, int)>, cpu: Option<string>,
                         motherboard: Option<string>, psu: Option<string>)

  function HashOf(sp: Spec): nat {
    if sp.GpuSpec? || sp.CpuSpec? then sp.hashRate else 0
  }

  function PowerOf(sp: Spec): nat {
    if sp.GpuSpec? || sp.CpuSpec? then sp.power else 0
  }

  /** Figure `f` times quantity, summed over the GPUs the table knows. */
  function GpuSum(gpus: seq<(string, int)>, f: Spec -> nat): int {
    if gpus == [] then 0 else GpuTerm(gpus[0], f) + GpuSum(gpus[1..], f)
  }

  /** What one (name, quantity) entry adds to a GPU sum. */
  function GpuTerm(g: (string, int), f: Spec -> nat): (t: int)
    ensures g.1 >= 0 ==> t >= 0
  {
    var figure := GpuFigure(g.0, f);
    MulNonNegative(figure, g.1);
    figure * g.1
  }

  /** Figure `f` of a GPU the table knows; 0 for any other name. */
  function GpuFigure(name: string, f: Spec -> nat): nat {
    match Lookup(GpuTable, name)
    case Some(sp) => f(sp)
    case None => 0
  }

  lemma MulNonNegative(a: nat, b: int)
    ensures b >= 0 ==> a * b >= 0
  {
  }

  function CpuTerm(cpu: Option<string>, f: Spec -> nat): nat {
    if cpu.None? then 0
    else match Lookup(CpuTable, cpu.value)
      case Some(sp) => f(sp)
      case None => 0
  }

  /** `calculate_total_hash_rate`: hash rate times quantity over the GPUs
      the table knows, plus the CPU's hash rate when the table knows it. */
  function TotalHashRate(b: Build): (r: int)
    ensures r == GpuSum(b.gpus, HashOf) + CpuTerm(b.cpu, HashOf)
    ensures (forall k :: 0 <= k < |b.gpus| ==> b.gpus[k].1 >= 0) ==> r >= 0
  {
    GpuSumNonNegative(b.gpus, HashOf);
    GpuSum(b.gpus, HashOf) + CpuTerm(b.cpu, HashOf)
  }

  /** `calculate_power_consumption`: the same sum over the power figures;
      the motherboard and the PSU draw nothing. */
  function TotalPower(b: Build): (r: int)
    ensures r == GpuSum(b.gpus, PowerOf) + CpuTerm(b.cpu, PowerOf)
    ensures (forall k :: 0 <= k < |b.gpus| ==> b.gpus[k].1 >= 0) ==> r >= 0
  {
    GpuSumNonNegative(b.gpus, PowerOf);
    GpuSum(b.gpus, PowerOf) + CpuTerm(b.cpu, PowerOf)
  }

  /** One more GPU line raises both totals by that GPU's figures times its
      quantity, and by nothing when the table does not know it; the
      motherboard and the PSU never count. */
  lemma TotalsAddGpu(b: Build, name: string, qty: int, mb: Option<string>, psu: Option<string>)
    ensures var b' := Build(b.gpus + [(name, qty)], b.cpu, mb, psu);
      && TotalHashRate(b') == TotalHashRate(b) + GpuFigure(name, HashOf) * qty
      && TotalPower(b') == TotalPower(b) + GpuFigure(name, PowerOf) * qty
  {
    GpuSumAppend(b.gpus, [(name, qty)], HashOf);
    GpuSumAppend(b.gpus, [(name, qty)], PowerOf);
    GpuSumSingle(name, qty, HashOf);
    GpuSumSingle(name, qty, PowerOf);
  }

  lemma {:induction false} GpuSumNonNegative(gpus: seq<(string, int)>, f: Spec -> nat)
    ensures (forall k :: 0 <= k < |gpus| ==> gpus[k].1 >= 0) ==> GpuSum(gpus, f) >= 0
  {
    if gpus != [] && forall k :: 0 <= k < |gpus| ==> gpus[k].1 >= 0 {
      forall k | 0 <= k < |gpus[1..]| ensures gpus[1..][k].1 >= 0 {
        assert gpus[1..][k] == gpus[k + 1];
      }
      GpuSumNonNegative(gpus[1..], f);
      assert GpuTerm(gpus[0], f) >= 0;
    }
  }

  /** The GPU part of a total is additive over the list of GPUs... */
  lemma {:induction false} GpuSumAppend(a: seq<(string, int)>, b: seq<(string, int)>, f: Spec -> nat)
    ensures GpuSum(a + b, f) == GpuSum(a, f) + GpuSum(b, f)
  {
    if a == [] {
      assert a + b == b;
    } else {
      assert (a + b)[1..] == a[1..] + b;
      GpuSumAppend(a[1..], b, f);
    }
  }

  /** ...and one entry contributes its figure times its quantity when the
      table knows it, and nothing otherwise; together these fix the sum. */
  lemma GpuSumSingle(name: string, qty: int, f: Spec -> nat)
    ensures GpuSum([(name, qty)], f) ==
      (if Lookup(GpuTable, name).Some? then f(Lookup(GpuTable, name).value) * qty else 0)
  {
  }

  /** Changing the CPU or the quantities of unknown GPUs changes nothing
      when neither is in the tables. */
  lemma {:induction false} UnknownGpusCountNothing(gpus: seq<(string, int)>, f: Spec -> nat)
    requires forall k :: 0 <= k < |gpus| ==> Lookup(GpuTable, gpus[k].0).None?
    ensures GpuSum(gpus, f) == 0
  {
    if gpus != [] {
      assert forall k :: 1 <= k < |gpus| ==> gpus[1..][k - 1] == gpus[k];
      UnknownGpusCountNothing(gpus[1..], f);
    }
  }

  lemma TotalsExample()
    ensures var b := Build([("RTX 4090", 2)], Some("i9-13900K"), Some("ASRock B550M PRO4"), None);
      TotalHashRate(b) == 265 && TotalPower(b) == 1025
  {
    assert Lookup(GpuTable, "RTX 4090") == Some(GpuSpec(120, 450, LegendaryTier));
    assert Lookup(CpuTable, "i9-13900K") == Some(CpuSpec(25, 125, LegendaryTier));
  }

  /** `sum(user_parts["gpus"].values())` */
  function GpuCount(gpus: seq<(string, int)>): int {
    if gpus == [] then 0 else gpus[0].1 + GpuCount(gpus[1..])
  }

  /** The outcome of `is_build_valid`, with the figures its message shows. */
  datatype Verdict = Valid | TooManyGpus(board: string, maxGpus: nat) | InsufficientPower(power: int, wattage: nat)

  /** The motherboard rule: a known board carries at most `max_gpus` GPUs. */
  predicate BoardOverloaded(b: Build) {
    && b.motherboard.Some?
    && Lookup(BoardTable, b.motherboard.value).Some?
    && Lookup(BoardTable, b.motherboard.value).value.BoardSpec?
    && GpuCount(b.gpus) > Lookup(BoardTable, b.motherboard.value).value.maxGpus
  }

  /** The 80% rule for a known PSU, stated on integers: power may not
      exceed four fifths of the wattage. */
  predicate PsuOverloaded(b: Build) {
    && b.psu.Some?
    && Lookup(PsuTable, b.psu.value).Some?
    && Lookup(PsuTable, b.psu.value).value.PsuSpec?
    && 5 * TotalPower(b) > 4 * Lookup(PsuTable, b.psu.value).value.wattage
  }

  /** `is_build_valid`: the motherboard rule is checked first, then the PSU
      rule as `total_power > psu_wattage * 0.8`. The wattages of the table
      times 0.8 are whole numbers in binary floating point too, so the
      product is taken as exact. */
  function IsBuildValid(b: Build): (v: Verdict)
    ensures v.TooManyGpus? <==> BoardOverloaded(b)
    ensures v.InsufficientPower? <==> !BoardOverloaded(b) && PsuOverloaded(b)
    ensures v.Valid? <==> !BoardOverloaded(b) && !PsuOverloaded(b)
    ensures v.InsufficientPower? ==> v.power == TotalPower(b)
  {
    var boardCheck :=
      if b.motherboard.Some? then
        match Lookup(BoardTable, b.motherboard.value)
        case Some(BoardSpec(maxGpus, _)) =>
          if GpuCount(b.gpus) > maxGpus then Some(TooManyGpus(b.motherboard.value, maxGpus)) else None
        case _ => None
      else None;
    if boardCheck.Some? then boardCheck.value
    else if b.psu.Some? then
      match Lookup(PsuTable, b.psu.value)
      case Some(PsuSpec(wattage, _)) =>
        var power := TotalPower(b);
        if (power as real) > (wattage as real) * 0.8 then InsufficientPower(power, wattage) else Valid
      case _ => Valid
    else Valid
  }

  /** A valid build with a known PSU draws at most 80% of its wattage, and
      one with a known board has no more GPUs than the board's slots. */
  lemma ValidBuildBounds(b: Build)
    requires IsBuildValid(b).Valid?
    ensures b.psu.Some? && Lookup(PsuTable, b.psu.value).Some? ==>
      (TotalPower(b) as real) <= (Lookup(PsuTable, b.psu.value).value.wattage as real) * 0.8
    ensures b.motherboard.Some? && Lookup(BoardTable, b.motherboard.value).Some? ==>
      GpuCount(b.gpus) <= Lookup(BoardTable, b.motherboard.value).value.maxGpus
  {
    if b.psu.Some? {
      LookupOfKind(Psus, b.psu.value);
    }
    if b.motherboard.Some? {
      LookupOfKind(Motherboards, b.motherboard.value);
    }
  }

  /** The board rule wins: five GPUs on a four-slot board with a PSU that
      is far too small report the board. */
  lemma BoardCheckedFirst()
    ensures IsBuildValid(Build([("RTX 4090", 5)], None, Some("ASUS ROG MAXIMUS Z790 HERO"), Some("EVGA 600 W1")))
         == TooManyGpus("ASUS ROG MAXIMUS Z790 HERO", 4)
  {
    assert Lookup(BoardTable, "ASUS ROG MAXIMUS Z790 HERO") == Some(BoardSpec(4, LegendaryTier));
  }

  /** One RTX 4090 (450 W) passes on the 600 W unit's 480 W budget; adding
      the i9 (125 W) does not. */
  lemma PsuBudgetExample()
    ensures IsBuildValid(Build([("RTX 4090", 1)], None, None, Some("EVGA 600 W1"))).Valid?
    ensures IsBuildValid(Build([("RTX 4090", 1)], Some("i9-13900K"), None, Some("EVGA 600 W1")))
         == InsufficientPower(575, 600)
  {
    assert Lookup(GpuTable, "RTX 4090") == Some(GpuSpec(120, 450, LegendaryTier));
    assert Lookup(CpuTable, "i9-13900K") == Some(CpuSpec(25, 125, LegendaryTier));
    assert Lookup(PsuTable, "EVGA 600 W1") == Some(PsuSpec(600, CommonTier));
  }
}

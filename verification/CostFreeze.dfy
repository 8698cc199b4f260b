/**
 Changing the cost of a product without rewriting the past.

 The merchant's database keeps one cost per product and, on an order line, a cost only
 once it has been fixed. The two ways of extending an edit to the orders already there
 must look, line by line, like a plain history of costs.
 */
module CostFreeze {
  import opened Options

  type LineId = nat
  type Variant = nat

  /** Costs are in hundredths. A line keeps the variant it was sold as. */
  datatype Line = Line(variant: Option<Variant>, costAtSale: Option<int>, frozenAt: Option<int>)

  datatype Product = Product(price: int, cost: Option<int>, netValue: int)

  datatype Tables = Tables(lines: map<LineId, Line>, products: map<Variant, Product>)

  datatype Scope = Future | All

  datatype Effect = Effect(freezeExisting: bool, clearFrozen: bool)

  /** A cost as it arrives: missing, an empty text, something that is no number, or a number. */
  datatype RawCost = Missing | Blank | NotANumber | Number(value: int)

  function CostToFreeze(previous: RawCost): Option<int> {
    if previous.Number? && previous.value >= 0 then Some(previous.value) else None
  }

  function ScopeEffect(scope: Scope, previous: RawCost): Effect {
    match scope
    case All => Effect(false, true)
    case Future => Effect(CostToFreeze(previous).Some?, false)
  }

  /** A cost column read back: a number or null. */
  function FromColumn(cost: Option<int>): RawCost {
    match cost
    case None => Missing
    case Some(n) => Number(n)
  }

  function PreviousCost(t: Tables, v: Variant): RawCost {
    if v in t.products then FromColumn(t.products[v].cost) else Missing
  }

  /** The cost a line is reckoned with: its own if it is fixed, else that of its product. */
  function CostOf(t: Tables, id: LineId): Option<int>
    requires id in t.lines
  {
    var line := t.lines[id];
    if line.costAtSale.Some? then line.costAtSale
    else if line.variant.Some? && line.variant.value in t.products then t.products[line.variant.value].cost
    else None
  }

  function Costs(t: Tables): map<LineId, Option<int>> {
    map id | id in t.lines :: CostOf(t, id)
  }

  predicate Sold(t: Tables, id: LineId, v: Variant) {
    id in t.lines && t.lines[id].variant == Some(v)
  }

  /** What the app keeps: no line is marked as fixed without a cost, and no cost is negative. */
  ghost predicate Sound(t: Tables) {
    && (forall id | id in t.lines :: t.lines[id].frozenAt.Some? <==> t.lines[id].costAtSale.Some?)
    && (forall v | v in t.products && t.products[v].cost.Some? :: t.products[v].cost.value >= 0)
  }

  // --- The two writes ------------------------------------------------------------

  function Frozen(t: Tables, v: Variant, cost: Option<int>, now: int): Tables {
    t.(lines := map id | id in t.lines ::
         if Sold(t, id, v) && t.lines[id].frozenAt.None?
         then t.lines[id].(costAtSale := cost, frozenAt := Some(now)) else t.lines[id])
  }

  function Thawed(t: Tables, v: Variant): Tables {
    t.(lines := map id | id in t.lines ::
         if Sold(t, id, v) then t.lines[id].(costAtSale := None, frozenAt := None) else t.lines[id])
  }

  function Scoped(t: Tables, v: Variant, scope: Scope, now: int): Tables {
    var effect := ScopeEffect(scope, PreviousCost(t, v));
    if effect.freezeExisting then Frozen(t, v, CostToFreeze(PreviousCost(t, v)), now)
    else if effect.clearFrozen then Thawed(t, v)
    else t
  }

  function Repriced(t: Tables, v: Variant, cost: int): Tables
    requires v in t.products
  {
    var p := t.products[v];
    t.(products := t.products[v := p.(cost := Some(cost), netValue := p.price - cost)])
  }

  /**
   What the choice does to a line, whatever is in the tables: `all` frees every line of the
   variant; `future` fixes those that are not fixed, at the cost the product has, and only
   if that is a cost: there, and not negative.
   */
  lemma WhatGetsFixed(t: Tables, v: Variant, scope: Scope, now: int)
    ensures var next := Scoped(t, v, scope, now);
      next.products == t.products && next.lines.Keys == t.lines.Keys && forall id | id in t.lines ::
        var line := t.lines[id];
        next.lines[id] ==
          (if line.variant != Some(v) then line
           else if scope.All? then Line(Some(v), None, None)
           else if line.frozenAt.None? && v in t.products && t.products[v].cost.Some? && t.products[v].cost.value >= 0
           then Line(Some(v), t.products[v].cost, Some(now))
           else line)
  {
  }

  // --- The plain history -----------------------------------------------------------

  /** What an edit means for the cost of a line of that variant. */
  function Meaning(scope: Scope, known: Option<int>, cost: int): Option<int> {
    match scope
    case All => Some(cost)
    case Future => if known.Some? then known else Some(cost)
  }

  function Edited(t: Tables, h: map<LineId, Option<int>>, v: Variant, scope: Scope, cost: int): map<LineId, Option<int>>
    requires h.Keys == t.lines.Keys
  {
    map id | id in h :: if Sold(t, id, v) then Meaning(scope, h[id], cost) else h[id]
  }

  /** An edit whose two writes succeed, on a product that has its row. */
  lemma EditMeansWhatItSays(t: Tables, v: Variant, scope: Scope, cost: int, now: int)
    requires Sound(t) && v in t.products && cost >= 0
    ensures var next := Repriced(Scoped(t, v, scope, now), v, cost);
      Sound(next) && Costs(next) == Edited(t, Costs(t), v, scope, cost)
  {
    var next := Repriced(Scoped(t, v, scope, now), v, cost);
    forall id | id in t.lines
      ensures id in next.lines
      ensures CostOf(next, id) == if Sold(t, id, v) then Meaning(scope, CostOf(t, id), cost) else CostOf(t, id)
    {
    }
  }

  // --- The operations --------------------------------------------------------------

  datatype Outcome = Saved | VariantInvalid | CostInvalid | WriteRefused(permission: bool) | HalfSaved

  /** Which of the remote writes of one save go through. */
  datatype Luck = Luck(shopifyOk: bool, permission: bool, readOk: bool, scopeOk: bool, productOk: bool)

  class MerchantDatabase {
    var lines: map<LineId, Line>
    var products: map<Variant, Product>

    constructor ()
      ensures Contents() == Tables(map[], map[]) && Sound(Contents())
    {
      lines, products := map[], map[];
    }

    function Contents(): Tables
      reads this
    {
      Tables(lines, products)
    }

    /** `applyCostScope`: best effort, a write that fails changes nothing. */
    method ApplyCostScope(v: Variant, previous: RawCost, scope: Scope, now: int, scopeOk: bool)
      requires previous == PreviousCost(Contents(), v)
      modifies this`lines
      ensures Contents() == if scopeOk then Scoped(old(Contents()), v, scope, now) else old(Contents())
    {
      var effect := ScopeEffect(scope, previous);
      if effect.freezeExisting {
        if scopeOk {
          var cost := CostToFreeze(previous);
          lines := map id | id in lines ::
            if lines[id].variant == Some(v) && lines[id].frozenAt.None?
            then lines[id].(costAtSale := cost, frozenAt := Some(now)) else lines[id];
        }
        return;
      }
      if effect.clearFrozen && scopeOk {
        lines := map id | id in lines ::
          if lines[id].variant == Some(v) then lines[id].(costAtSale := None, frozenAt := None) else lines[id];
      }
    }

    /** The current cost of a product, and the net value that goes with it. */
    method SaveCost(v: Variant, cost: int)
      requires v in products
      modifies this`products
      ensures Contents() == Repriced(old(Contents()), v, cost)
      ensures products[v].cost == Some(cost) && products[v].price == old(products)[v].price && products[v].netValue + cost == products[v].price
    {
      var p := products[v];
      products := products[v := p.(cost := Some(cost), netValue := p.price - cost)];
    }

    /**
     `applyCost`. Whatever fails, no line is ever left fixed without a cost. When the
     writes go through, the costs of the lines are those of the plain history. When only
     the first of the two does, a `future` edit changes no cost; when only the second
     does, it reaches every line that is not fixed.
     */
    method ApplyCost(v: Variant, itemOk: bool, cost: RawCost, scope: Scope, connected: bool, now: int, luck: Luck)
      returns (outcome: Outcome)
      requires Sound(Contents())
      modifies this
      ensures Sound(Contents())
      ensures outcome.VariantInvalid? <==> !itemOk
      ensures outcome.CostInvalid? <==> itemOk && !(cost.Number? && cost.value >= 0)
      ensures outcome.WriteRefused? ==> !luck.shopifyOk
      ensures !outcome.Saved? && !outcome.HalfSaved? ==> Contents() == old(Contents())
      ensures !connected ==> Contents() == old(Contents())
      ensures outcome.Saved? && connected && luck.scopeOk && v in old(products) ==>
        Costs(Contents()) == Edited(old(Contents()), Costs(old(Contents())), v, scope, cost.value)
      ensures outcome.Saved? && connected && !luck.scopeOk && v in old(products) ==>
        Contents() == Repriced(old(Contents()), v, cost.value)
      // The product's own row: its new cost, its price as it was, and what the price leaves over the cost.
      ensures products.Keys == old(products).Keys && forall u | u in old(products) && u != v :: products[u] == old(products)[u]
      ensures if outcome.Saved? && connected && v in old(products)
        then products[v].cost == Some(cost.value) && products[v].price == old(products)[v].price
          && products[v].netValue + cost.value == products[v].price
        else products == old(products)
      ensures outcome.HalfSaved? || (outcome.Saved? && connected && v !in old(products)) ==>
        Contents() == if luck.readOk && luck.scopeOk then Scoped(old(Contents()), v, scope, now) else old(Contents())
      ensures (outcome.HalfSaved? || v !in old(products)) && scope.Future? ==> Costs(Contents()) == Costs(old(Contents()))
    {
      if !itemOk {
        return VariantInvalid;
      }
      if !cost.Number? || cost.value < 0 {
        return CostInvalid;
      }
      if !luck.shopifyOk {
        return WriteRefused(luck.permission);
      }
      if connected {
        if !luck.readOk {
          return HalfSaved;
        }
        hide Costs, Edited, Scoped, Repriced, Sound;
        var existing := v in products;
        ghost var before := Contents();
        ScopeKeepsProducts(before, v, scope, now);
        ScopeAlone(before, v, now);
        if v in products {
          EditMeansWhatItSays(before, v, scope, cost.value, now);
        }
        ScopeIsSound(before, v, scope, now);
        ApplyCostScope(v, if existing then FromColumn(products[v].cost) else Missing, scope, now, luck.scopeOk);
        if existing {
          if !luck.productOk {
            return HalfSaved;
          }
          SaveCost(v, cost.value);
        }
      }
      return Saved;
    }
  }

  /** Fixing lines at the cost they have changes no cost. */
  lemma ScopeAlone(t: Tables, v: Variant, now: int)
    requires Sound(t)
    ensures Costs(Scoped(t, v, Future, now)) == Costs(t)
  {
    var next := Scoped(t, v, Future, now);
    forall id | id in t.lines ensures id in next.lines && CostOf(next, id) == CostOf(t, id) {
    }
  }

  lemma ScopeKeepsProducts(t: Tables, v: Variant, scope: Scope, now: int)
    ensures Scoped(t, v, scope, now).products == t.products
  {
  }

  lemma ScopeIsSound(t: Tables, v: Variant, scope: Scope, now: int)
    requires Sound(t)
    ensures Sound(Scoped(t, v, scope, now))
  {
  }

  // --- Every run --------------------------------------------------------------------

  /**
   Without its first write, an edit reaches the lines that are not fixed and no others.
   That is what it means exactly when no line it should have fixed had another cost
   before, and no line it should have freed is fixed at another one.
   */
  ghost predicate Harmless(t: Tables, v: Variant, scope: Scope, cost: int) {
    forall id | Sold(t, id, v) ::
      if t.lines[id].costAtSale.Some? then scope.Future? || t.lines[id].costAtSale == Some(cost)
      else scope.All? || CostOf(t, id).None? || CostOf(t, id) == Some(cost)
  }

  lemma SecondWriteAloneIsExact(t: Tables, v: Variant, scope: Scope, cost: int)
    requires v in t.products
    ensures Costs(Repriced(t, v, cost)) == Edited(t, Costs(t), v, scope, cost) <==> Harmless(t, v, scope, cost)
  {
    var next, meant := Costs(Repriced(t, v, cost)), Edited(t, Costs(t), v, scope, cost);
    forall id | id in t.lines
      ensures id in next && id in meant
      ensures !Sold(t, id, v) ==> next[id] == meant[id]
      ensures Sold(t, id, v) ==>
        (next[id] == meant[id] <==>
          if t.lines[id].costAtSale.Some? then scope.Future? || t.lines[id].costAtSale == Some(cost)
          else scope.All? || CostOf(t, id).None? || CostOf(t, id) == Some(cost))
    {
    }
    if next == meant {
      forall id | Sold(t, id, v)
        ensures if t.lines[id].costAtSale.Some? then scope.Future? || t.lines[id].costAtSale == Some(cost)
                else scope.All? || CostOf(t, id).None? || CostOf(t, id) == Some(cost)
      {
        assert next[id] == meant[id];
      }
    }
  }

  /**
   A line is sold, a product gets its row, or a cost is edited: with both writes, with the
   first only (the second failed, or there is no row to write to), or with the second only.
   */
  datatype Op =
    | Sale(id: LineId, sold: Option<Variant>)
    | Arrival(variant: Variant, product: Product)
    | Edit(variant: Variant, scope: Scope, cost: nat, now: int)
    | FirstWrite(variant: Variant, scope: Scope, now: int)
    | SecondWrite(variant: Variant, scope: Scope, cost: nat)

  ghost predicate Allowed(t: Tables, op: Op) {
    match op
    case Sale(id, _) => id !in t.lines
    case Arrival(v, p) => v !in t.products && (p.cost.Some? ==> p.cost.value >= 0)
    case Edit(v, _, _, _) => v in t.products
    case FirstWrite(_, _, _) => true
    case SecondWrite(v, scope, cost) => v in t.products && Harmless(t, v, scope, cost)
  }

  ghost function Do(t: Tables, op: Op): Tables
    requires Allowed(t, op)
  {
    match op
    case Sale(id, sold) => t.(lines := t.lines[id := Line(sold, None, None)])
    case Arrival(v, p) => t.(products := t.products[v := p])
    case Edit(v, scope, cost, now) => Repriced(Scoped(t, v, scope, now), v, cost)
    case FirstWrite(v, scope, now) => Scoped(t, v, scope, now)
    case SecondWrite(v, _, cost) => Repriced(t, v, cost)
  }

  /** The plain history: per line its variant and its cost, per product its current cost. */
  datatype History = History(sold: map<LineId, Option<Variant>>, known: map<LineId, Option<int>>, current: map<Variant, Option<int>>)

  function DoPlainly(h: History, op: Op): History {
    match op
    case Sale(id, sold) =>
      h.(sold := h.sold[id := sold],
         known := h.known[id := if sold.Some? && sold.value in h.current then h.current[sold.value] else None])
    case Arrival(v, p) =>
      h.(current := h.current[v := p.cost],
         known := map id | id in h.known ::
           if id in h.sold && h.sold[id] == Some(v) && h.known[id].None? then p.cost else h.known[id])
    case Edit(v, scope, cost, _) => EditPlainly(h, v, scope, cost)
    case SecondWrite(v, scope, cost) => EditPlainly(h, v, scope, cost)
    case FirstWrite(v, Future, _) => h
    case FirstWrite(v, All, _) =>
      h.(known := map id | id in h.known ::
           if id !in h.sold || h.sold[id] != Some(v) then h.known[id]
           else if v in h.current then h.current[v] else None)
  }

  function EditPlainly(h: History, v: Variant, scope: Scope, cost: nat): History {
    h.(current := h.current[v := Some(cost)],
       known := map id | id in h.known ::
         if id in h.sold && h.sold[id] == Some(v) then Meaning(scope, h.known[id], cost) else h.known[id])
  }

  function HistoryOf(t: Tables): History {
    History(map id | id in t.lines :: t.lines[id].variant, Costs(t), map v | v in t.products :: t.products[v].cost)
  }

  ghost predicate Run(t: Tables, ops: seq<Op>)
    decreases |ops|
  {
    ops == [] || (Allowed(t, ops[0]) && Run(Do(t, ops[0]), ops[1..]))
  }

  ghost function Exec(t: Tables, ops: seq<Op>): Tables
    requires Run(t, ops)
    decreases |ops|
  {
    if ops == [] then t else Exec(Do(t, ops[0]), ops[1..])
  }

  function ExecPlainly(h: History, ops: seq<Op>): History
    decreases |ops|
  {
    if ops == [] then h else ExecPlainly(DoPlainly(h, ops[0]), ops[1..])
  }

  lemma SaleRefines(t: Tables, id: LineId, sold: Option<Variant>)
    requires Sound(t) && id !in t.lines
    ensures var op := Sale(id, sold); Sound(Do(t, op)) && HistoryOf(Do(t, op)) == DoPlainly(HistoryOf(t), op)
  {
    var next, plain := HistoryOf(Do(t, Sale(id, sold))), DoPlainly(HistoryOf(t), Sale(id, sold));
    assert next.sold == plain.sold;
    assert next.known == plain.known;
  }

  lemma ArrivalRefines(t: Tables, v: Variant, p: Product)
    requires Sound(t) && Allowed(t, Arrival(v, p))
    ensures var op := Arrival(v, p); Sound(Do(t, op)) && HistoryOf(Do(t, op)) == DoPlainly(HistoryOf(t), op)
  {
    var next, plain := HistoryOf(Do(t, Arrival(v, p))), DoPlainly(HistoryOf(t), Arrival(v, p));
    assert next.known == plain.known;
    assert next.current == plain.current;
  }

  lemma EditKeepsTables(t: Tables, v: Variant, scope: Scope, cost: nat, now: int)
    requires v in t.products
    ensures var next := Repriced(Scoped(t, v, scope, now), v, cost);
      && next.lines.Keys == t.lines.Keys && next.products.Keys == t.products.Keys
      && (forall id | id in t.lines :: next.lines[id].variant == t.lines[id].variant)
      && (forall u | u in t.products :: next.products[u].cost == if u == v then Some(cost) else t.products[u].cost)
  {
  }

  lemma EditRefines(t: Tables, v: Variant, scope: Scope, cost: nat, now: int)
    requires Sound(t) && v in t.products
    ensures var op := Edit(v, scope, cost, now); Sound(Do(t, op)) && HistoryOf(Do(t, op)) == DoPlainly(HistoryOf(t), op)
  {
    EditMeansWhatItSays(t, v, scope, cost, now);
    EditKeepsTables(t, v, scope, cost, now);
    hide Scoped, Repriced, Sound, CostOf;
    var next, plain := HistoryOf(Do(t, Edit(v, scope, cost, now))), DoPlainly(HistoryOf(t), Edit(v, scope, cost, now));
    assert next.sold == plain.sold;
    assert next.known == plain.known;
    assert next.current == plain.current;
  }

  lemma ThawingMeans(t: Tables, v: Variant, now: int)
    ensures var next := Scoped(t, v, All, now);
      && next.lines.Keys == t.lines.Keys
      && (forall id | id in t.lines :: next.lines[id].variant == t.lines[id].variant)
      && (forall id | id in t.lines ::
            CostOf(next, id) == if !Sold(t, id, v) then CostOf(t, id) else if v in t.products then t.products[v].cost else None)
  {
  }

  lemma FreezingKeepsLines(t: Tables, v: Variant, now: int)
    ensures var next := Scoped(t, v, Future, now);
      && next.lines.Keys == t.lines.Keys
      && (forall id | id in t.lines :: next.lines[id].variant == t.lines[id].variant)
  {
  }

  lemma FreezingRefines(t: Tables, v: Variant, now: int)
    requires Sound(t)
    ensures HistoryOf(Scoped(t, v, Future, now)) == HistoryOf(t)
  {
    ScopeKeepsProducts(t, v, Future, now);
    FreezingKeepsLines(t, v, now);
    ScopeAlone(t, v, now);
    hide Scoped, Sound, Costs;
    assert HistoryOf(Scoped(t, v, Future, now)).sold == HistoryOf(t).sold;
  }

  lemma ThawingRefines(t: Tables, v: Variant, now: int)
    ensures HistoryOf(Scoped(t, v, All, now)) == DoPlainly(HistoryOf(t), FirstWrite(v, All, now))
  {
    ScopeKeepsProducts(t, v, All, now);
    ThawingMeans(t, v, now);
    hide Scoped, CostOf;
    var next, plain := HistoryOf(Scoped(t, v, All, now)), DoPlainly(HistoryOf(t), FirstWrite(v, All, now));
    assert next.sold == plain.sold;
    assert next.known == plain.known;
  }

  lemma FirstWriteRefines(t: Tables, v: Variant, scope: Scope, now: int)
    requires Sound(t)
    ensures var op := FirstWrite(v, scope, now); Sound(Do(t, op)) && HistoryOf(Do(t, op)) == DoPlainly(HistoryOf(t), op)
  {
    ScopeIsSound(t, v, scope, now);
    hide Scoped, Sound, HistoryOf;
    if scope.Future? {
      FreezingRefines(t, v, now);
    } else {
      ThawingRefines(t, v, now);
    }
  }

  lemma SecondWriteRefines(t: Tables, v: Variant, scope: Scope, cost: nat)
    requires Sound(t) && v in t.products && Harmless(t, v, scope, cost)
    ensures var op := SecondWrite(v, scope, cost); Sound(Do(t, op)) && HistoryOf(Do(t, op)) == DoPlainly(HistoryOf(t), op)
  {
    SecondWriteAloneIsExact(t, v, scope, cost);
    hide Sound, CostOf, Harmless;
    var next, plain := HistoryOf(Repriced(t, v, cost)), EditPlainly(HistoryOf(t), v, scope, cost);
    assert next.sold == plain.sold;
    assert next.known == plain.known;
    assert next.current == plain.current;
  }

  /**
   Over any sequence of sales, arrivals, edits and half-saved edits, fixing on change is
   the plain history: a first write alone changes no cost, or brings every line of the
   product to its current cost, and a second write alone means what the whole edit does where it is harmless.
   */
  lemma {:induction false} FreezingRefinesHistory(t: Tables, ops: seq<Op>)
    requires Sound(t) && Run(t, ops)
    ensures Sound(Exec(t, ops))
    ensures HistoryOf(Exec(t, ops)) == ExecPlainly(HistoryOf(t), ops)
    decreases |ops|
  {
    if ops != [] {
      match ops[0] {
        case Sale(id, sold) => SaleRefines(t, id, sold);
        case Arrival(v, p) => ArrivalRefines(t, v, p);
        case Edit(v, scope, cost, now) => EditRefines(t, v, scope, cost, now);
        case FirstWrite(v, scope, now) => FirstWriteRefines(t, v, scope, now);
        case SecondWrite(v, scope, cost) => SecondWriteRefines(t, v, scope, cost);
      }
      FreezingRefinesHistory(Do(t, ops[0]), ops[1..]);
    }
  }

  /** The net value is what the price leaves over the cost. */
  ghost predicate NetIsRight(p: Product) {
    p.cost.Some? && p.netValue + p.cost.value == p.price
  }

  lemma OpKeepsNet(t: Tables, op: Op)
    requires Allowed(t, op)
    ensures var next := Do(t, op);
      && (forall v | v in t.products :: v in next.products && next.products[v].price == t.products[v].price)
      && (forall v | v in t.products && NetIsRight(t.products[v]) :: NetIsRight(next.products[v]))
      && (op.Edit? || op.SecondWrite? ==> op.variant in next.products && NetIsRight(next.products[op.variant]))
  {
  }

  lemma {:induction false} RunSplits(t: Tables, ops: seq<Op>)
    requires Run(t, ops) && ops != []
    ensures var less, last := ops[..|ops| - 1], ops[|ops| - 1];
      Run(t, less) && Allowed(Exec(t, less), last) && Exec(t, ops) == Do(Exec(t, less), last)
    decreases |ops|
  {
    hide Allowed, Do;
    if |ops| == 1 {
      assert ops[1..] == [] && ops[..0] == [];
    } else {
      var next := Do(t, ops[0]);
      RunSplits(next, ops[1..]);
      assert ops[1..][..|ops| - 2] == ops[..|ops| - 1][1..];
    }
  }

  /** Over any run, every product whose cost was written has the net value its price leaves. */
  lemma {:induction false} NetFollowsTheCost(t: Tables, ops: seq<Op>)
    requires Run(t, ops)
    ensures forall k | 0 <= k < |ops| && (ops[k].Edit? || ops[k].SecondWrite?) ::
      ops[k].variant in Exec(t, ops).products && NetIsRight(Exec(t, ops).products[ops[k].variant])
    ensures forall v | v in t.products :: v in Exec(t, ops).products && Exec(t, ops).products[v].price == t.products[v].price
    decreases |ops|
  {
    if ops != [] {
      RunSplits(t, ops);
      hide Run, Exec, Allowed, Do;
      var less := ops[..|ops| - 1];
      NetFollowsTheCost(t, less);
      OpKeepsNet(Exec(t, less), ops[|ops| - 1]);
      assert forall k | 0 <= k < |less| :: ops[k] == less[k];
    }
  }
}

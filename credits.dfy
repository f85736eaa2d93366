/** The credits page (src/app/credits/page.tsx): the sapling catalogue in
    cost order, redeeming a reward against the balance behind a busy flag,
    the button states, and the progress towards the next reward. */
module Credits {
  import opened Basics
  import opened Sequences

  datatype Reward = Reward(id: string, name: string, cost: int, description: string)

  /** `REWARDS`. */
  function Catalogue(): seq<Reward> {
    [ Reward("oak-sapling", "Oak Sapling", 300, "Redeem an oak tree sapling to be planted."),
      Reward("maple-sapling", "Maple Sapling", 500, "Redeem a maple tree sapling to be planted."),
      Reward("cherry-sapling", "Cherry Blossom Sapling", 800, "Redeem a cherry blossom sapling to be planted."),
      Reward("pine-sapling", "Pine Sapling", 1000, "Redeem a pine tree sapling to be planted.") ]
  }

  function Cost(r: Reward): int { r.cost }

  /** `sortedRewards`: the catalogue by ascending cost. */
  function SortedRewards(): (rs: seq<Reward>)
    ensures SortedBy(rs, Cost) && multiset(rs) == multiset(Catalogue())
  {
    SortBy(Catalogue(), Cost)
  }

  /** The catalogue is already in cost order, so sorting keeps it as
      written. */
  lemma SortedRewardsIsCatalogue()
    ensures SortedRewards() == Catalogue()
  {
    var c := Catalogue();
    assert SortedBy(c, Cost) by {
      forall i, j | 0 <= i < j < |c| ensures Cost(c[i]) <= Cost(c[j]) {
      }
    }
    SortBySorted(c, Cost);
  }

  /** The status line. */
  datatype Notice = NotEnoughCredits | Redeemed(rewardName: string)

  function NoticeText(n: Notice): (t: string)
    ensures n.Redeemed? ==> t == "Redeemed: " + n.rewardName + "! \U{1F389}"
    ensures n.NotEnoughCredits? ==> t == "Not enough credits to redeem this."
  {
    match n
    case NotEnoughCredits => "Not enough credits to redeem this."
    case Redeemed(name) => "Redeemed: " + name + "! \U{1F389}"
  }

  /** The page's state; `pending` is the redemption suspended at the
      simulated API call, with the cost and name it will apply. */
  datatype Wallet = Wallet(points: int, busyId: Option<string>, message: Option<Notice>,
                           pending: Option<Reward>)

  function InitialWallet(): Wallet {
    Wallet(700, None, None, None)
  }

  /** `if (busyId)`: a non-empty id blocks; `null` and `""` do not. */
  predicate Busy(busyId: Option<string>) {
    busyId.Some? && busyId.value != ""
  }

  /** `handleRedeem` up to the simulated API call: ignored while busy;
      refused with a notice when the balance is short; otherwise the
      reward becomes busy and the redemption waits on the call. */
  function BeginRedeem(w: Wallet, rewardId: string, cost: int, name: string): (v: Wallet)
    ensures Busy(w.busyId) ==> v == w
    ensures !Busy(w.busyId) && w.points < cost ==> v == w.(message := Some(NotEnoughCredits))
    ensures !Busy(w.busyId) && w.points >= cost ==>
      v == w.(busyId := Some(rewardId), pending := Some(Reward(rewardId, name, cost, "")))
    ensures v.points == w.points
  {
    if Busy(w.busyId) then w
    else if w.points < cost then w.(message := Some(NotEnoughCredits))
    else w.(busyId := Some(rewardId), pending := Some(Reward(rewardId, name, cost, "")))
  }

  /** The rest of `handleRedeem` once the call settles: the cost is taken,
      the notice names the reward, and the busy flag is cleared. */
  function FinishRedeem(w: Wallet): (v: Wallet)
    ensures w.pending.None? ==> v == w
    ensures w.pending.Some? ==>
      && v.points == w.points - w.pending.value.cost
      && v.message == Some(Redeemed(w.pending.value.name))
      && v.busyId.None? && v.pending.None?
  {
    match w.pending
    case None => w
    case Some(r) => Wallet(w.points - r.cost, None, Some(Redeemed(r.name)), None)
  }

  /** A whole redemption on a page that is not busy. */
  function Redeem(w: Wallet, rewardId: string, cost: int, name: string): (v: Wallet)
    requires w.pending.None?
    ensures Busy(w.busyId) ==> v == w
    ensures !Busy(w.busyId) && w.points < cost ==> v == w.(message := Some(NotEnoughCredits))
    ensures !Busy(w.busyId) && w.points >= cost ==>
      v == Wallet(w.points - cost, None, Some(Redeemed(name)), None)
  {
    var b := BeginRedeem(w, rewardId, cost, name);
    if b.pending.Some? then FinishRedeem(b) else b
  }

  /** Balance never negative; a suspended redemption is the busy reward and
      fits in the balance. */
  predicate WalletValid(w: Wallet) {
    && w.points >= 0
    && (w.pending.Some? ==>
          w.busyId == Some(w.pending.value.id) && w.pending.value.id != "" && w.pending.value.cost <= w.points)
    && (w.pending.None? ==> w.busyId.None?)
  }

  /** A click on the button of the catalogue's `index`-th reward, or the
      pending call settling. */
  datatype Action = Click(index: nat) | CallSettles

  lemma CatalogueIdsNonEmpty()
    ensures forall i :: 0 <= i < |Catalogue()| ==> Catalogue()[i].id != ""
  {
  }

  /** A click on a disabled button does nothing; the others run the
      handler. */
  function Act(w: Wallet, a: Action): (v: Wallet)
    ensures WalletValid(w) ==> WalletValid(v)
  {
    match a
    case Click(i) =>
      if i >= |Catalogue()| then w
      else
        var r := Catalogue()[i];
        CatalogueIdsNonEmpty();
        if Disabled(w.points, w.busyId, r) then w
        else BeginRedeem(w, r.id, r.cost, r.name)
    case CallSettles => FinishRedeem(w)
  }

  function ActAll(w: Wallet, actions: seq<Action>): Wallet
    decreases |actions|
  {
    if actions == [] then w else ActAll(Act(w, actions[0]), actions[1..])
  }

  /** However the clicks and the settling calls interleave, the balance
      never goes below zero. */
  lemma {:induction false} BalanceNeverNegative(w: Wallet, actions: seq<Action>)
    requires WalletValid(w)
    ensures WalletValid(ActAll(w, actions)) && ActAll(w, actions).points >= 0
    decreases |actions|
  {
    if actions != [] {
      BalanceNeverNegative(Act(w, actions[0]), actions[1..]);
    }
  }

  /** `affordable`. */
  predicate Affordable(points: int, r: Reward) {
    points >= r.cost
  }

  /** `disabled`: this reward is busy or not affordable. */
  predicate Disabled(points: int, busyId: Option<string>, r: Reward) {
    busyId == Some(r.id) || !Affordable(points, r)
  }

  /** The button's caption. */
  datatype Caption = Processing | RedeemCaption | NotEnoughCaption

  function ButtonCaption(points: int, busyId: Option<string>, r: Reward): (c: Caption)
    ensures c == Processing <==> busyId == Some(r.id)
    ensures c == RedeemCaption <==> busyId != Some(r.id) && Affordable(points, r)
    ensures c == NotEnoughCaption ==> Disabled(points, busyId, r)
  {
    if busyId == Some(r.id) then Processing
    else if Affordable(points, r) then RedeemCaption
    else NotEnoughCaption
  }

  /** An enabled button on an idle page redeems: the cost is taken and the
      notice names the reward. */
  lemma EnabledButtonRedeems(w: Wallet, r: Reward)
    requires w.pending.None? && !Busy(w.busyId)
    requires !Disabled(w.points, w.busyId, r)
    ensures Redeem(w, r.id, r.cost, r.name) == Wallet(w.points - r.cost, None, Some(Redeemed(r.name)), None)
    ensures Redeem(w, r.id, r.cost, r.name).points >= 0
  {
  }

  /** While one redemption waits, another affordable reward's button stays
      enabled, yet its click changes nothing. */
  lemma OtherButtonEnabledButIgnored(w: Wallet, i: nat)
    requires WalletValid(w) && w.pending.Some? && i < |Catalogue()|
    requires Catalogue()[i].id != w.pending.value.id && Affordable(w.points, Catalogue()[i])
    ensures !Disabled(w.points, w.busyId, Catalogue()[i])
    ensures Act(w, Click(i)) == w
  {
  }

  /** The progress line: the first reward the balance cannot reach, how much
      is missing, and the percentage reached. */
  datatype Goal = Goal(next: Reward, need: int, pct: int)

  /** `NextGoal`: `None` when every reward is within reach. A zero cost only
      occurs with a negative balance, where the quotient is negative
      infinity and the percentage 0. */
  function NextGoal(points: int, rewards: seq<Reward>): (g: Option<Goal>)
    ensures g.None? <==> forall j :: 0 <= j < |rewards| ==> rewards[j].cost <= points
    ensures g.Some? ==>
      exists i :: 0 <= i < |rewards| && rewards[i] == g.value.next && (forall j :: 0 <= j < i ==> rewards[j].cost <= points)
    ensures g.Some? ==> g.value.next.cost > points && g.value.need > 0 && g.value.need == g.value.next.cost - points
    ensures g.Some? ==> 0 <= g.value.pct <= 100
    ensures g.Some? && points >= 0 ==>
      g.value.pct == Round((points * 100) as real / g.value.next.cost as real)
  {
    match FirstIndex(rewards, (r: Reward) => r.cost > points)
    case None => None
    case Some(i) =>
      var next := rewards[i];
      var pct := if next.cost == 0 then 0
                 else Clamp(Round((points * 100) as real / next.cost as real) as real, 0.0, 100.0).Floor;
      if points >= 0 then
        PercentBelowHundred(points, next.cost);
        Some(Goal(next, next.cost - points, pct))
      else Some(Goal(next, next.cost - points, pct))
  }

  /** Below the cost, the rounded percentage is already within 0..100. */
  lemma PercentBelowHundred(points: int, cost: int)
    requires 0 <= points < cost
    ensures 0 <= Round((points * 100) as real / cost as real) <= 100
  {
    var q := (points * 100) as real / cost as real;
    assert 0.0 <= q < 100.0 by {
      assert (points * 100) as real < (cost * 100) as real;
    }
  }

  /** With the starting 700 credits the next goal is the cherry sapling,
      100 credits away and 88 per cent reached. */
  lemma StartingGoal()
    ensures NextGoal(700, Catalogue()) == Some(Goal(Catalogue()[2], 100, 88))
  {
    var g := NextGoal(700, Catalogue());
    assert Catalogue()[1].cost <= 700 < Catalogue()[2].cost;
    assert g.value.next == Catalogue()[2];
    assert Round(70000.0 / 800.0) == 88;
  }

  /** The page's state in fields; `HandleRedeem` runs the handler's steps in
      order, the simulated API call between them resolving at once. */
  class PointsPage {
    var points: int
    var busyId: Option<string>
    var message: Option<Notice>

    function Snapshot(): Wallet
      reads this
    {
      Wallet(points, busyId, message, None)
    }

    constructor()
      ensures Snapshot() == InitialWallet()
    {
      points := 700;
      busyId := None;
      message := None;
    }

    method HandleRedeem(rewardId: string, cost: int, name: string)
      modifies this
      ensures Snapshot() == Redeem(old(Snapshot()), rewardId, cost, name)
    {
      if Busy(busyId) {
        return;
      }
      if points < cost {
        message := Some(NotEnoughCredits);
        return;
      }
      busyId := Some(rewardId);
      points := points - cost;
      message := Some(Redeemed(name));
      busyId := None;
    }
  }
}

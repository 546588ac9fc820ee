/** Expanding a role configuration into a list of roles, shuffling it in place
    and dealing it to the players by position (server/src/roleDistributor.ts). */
module RoleDistributor {
  import opened Types

  /** `n` copies of `x`; the list one of the source's `push` loops builds. */
  function Repeat(x: Role, n: nat): (r: seq<Role>)
    ensures |r| == n
    ensures forall k :: 0 <= k < |r| ==> r[k] == x
  {
    if n == 0 then [] else Repeat(x, n - 1) + [x]
  }

  lemma {:induction false} RepeatCount(x: Role, n: nat, y: Role)
    ensures multiset(Repeat(x, n))[y] == if x == y then n else 0
  {
    if n > 0 {
      RepeatCount(x, n - 1, y);
      assert multiset(Repeat(x, n)) == multiset(Repeat(x, n - 1)) + multiset{x};
    }
  }

  /** The unshuffled role list: every mafia, then every doktor, kurva,
      policajac and civil. */
  function RoleList(cfg: RoleConfig): seq<Role>
  {
    Repeat(Mafia, cfg.mafia) + Repeat(Doktor, cfg.doktor) + Repeat(Kurva, cfg.kurva)
      + Repeat(Policajac, cfg.policajac) + Repeat(Civil, cfg.civil)
  }

  /** The role list holds one role per slot, and each kind exactly as many
      times as the configuration asks for. */
  lemma RoleListIsConfigured(cfg: RoleConfig)
    ensures |RoleList(cfg)| == Total(cfg)
    ensures multiset(RoleList(cfg)) == RoleMultiset(cfg)
  {
    var m, d, k := Repeat(Mafia, cfg.mafia), Repeat(Doktor, cfg.doktor), Repeat(Kurva, cfg.kurva);
    var p, c := Repeat(Policajac, cfg.policajac), Repeat(Civil, cfg.civil);
    var parts := multiset(m) + multiset(d) + multiset(k) + multiset(p) + multiset(c);
    assert multiset(RoleList(cfg)) == parts;
    forall y: Role
      ensures parts[y] == RoleMultiset(cfg)[y]
    {
      PartsCount(cfg, y);
    }
    assert parts == RoleMultiset(cfg);
  }

  lemma PartsCount(cfg: RoleConfig, y: Role)
    ensures (multiset(Repeat(Mafia, cfg.mafia)) + multiset(Repeat(Doktor, cfg.doktor)) +
      multiset(Repeat(Kurva, cfg.kurva)) + multiset(Repeat(Policajac, cfg.policajac)) +
      multiset(Repeat(Civil, cfg.civil)))[y] == RoleMultiset(cfg)[y]
  {
    RepeatCount(Mafia, cfg.mafia, y);
    RepeatCount(Doktor, cfg.doktor, y);
    RepeatCount(Kurva, cfg.kurva, y);
    RepeatCount(Policajac, cfg.policajac, y);
    RepeatCount(Civil, cfg.civil, y);
    RoleMultisetCounts(cfg, y);
  }

  /** One of the source's counting loops: pushes `n` copies of `x` onto `roles`. */
  method PushCopies(roles: seq<Role>, x: Role, n: nat) returns (r: seq<Role>)
    ensures r == roles + Repeat(x, n)
  {
    r := roles;
    var i := 0;
    while i < n
      invariant 0 <= i <= n
      invariant r == roles + Repeat(x, i)
    {
      r := r + [x];
      i := i + 1;
    }
  }

  /** The five push loops that build the roles array before it is shuffled. */
  method BuildRoles(cfg: RoleConfig) returns (roles: seq<Role>)
    ensures roles == RoleList(cfg)
  {
    roles := PushCopies([], Mafia, cfg.mafia);
    roles := PushCopies(roles, Doktor, cfg.doktor);
    roles := PushCopies(roles, Kurva, cfg.kurva);
    roles := PushCopies(roles, Policajac, cfg.policajac);
    roles := PushCopies(roles, Civil, cfg.civil);
  }

  /** `s` with the elements at `i` and `j` exchanged (a no-op when `i == j`). */
  function SwapAt<T>(s: seq<T>, i: nat, j: nat): (r: seq<T>)
    requires i < |s| && j < |s|
    ensures |r| == |s|
  {
    s[i := s[j]][j := s[i]]
  }

  /** The random picks of a Fisher-Yates pass over `n` elements: the `k`-th
      pick is the partner of index `n - 1 - k`, which is at least 1, and the
      partner lies in `[0, n - 1 - k]`. */
  ghost predicate PicksFit(n: nat, picks: seq<nat>)
  {
    forall k :: 0 <= k < |picks| ==> k + 1 < n && picks[k] <= n - 1 - k
  }

  /** The list after the first `m` swaps of a Fisher-Yates pass that made
      the given picks: index `|s| - 1` is swapped with `picks[0]`, then
      index `|s| - 2` with `picks[1]`, and so on. */
  function Swaps<T>(s: seq<T>, picks: seq<nat>, m: nat): (r: seq<T>)
    requires PicksFit(|s|, picks) && m <= |picks|
    ensures |r| == |s|
  {
    if m == 0 then s
    else
      assert m < |s| && picks[m - 1] <= |s| - m;
      SwapAt(Swaps(s, picks, m - 1), |s| - m, picks[m - 1])
  }

  /** Picks made later do not change the swaps already done. */
  lemma {:induction false} SwapsExtend<T>(s: seq<T>, picks: seq<nat>, j: nat, m: nat)
    requires PicksFit(|s|, picks) && PicksFit(|s|, picks + [j]) && m <= |picks|
    ensures Swaps(s, picks + [j], m) == Swaps(s, picks, m)
  {
    if m > 0 {
      SwapsExtend(s, picks, j, m - 1);
      assert (picks + [j])[m - 1] == picks[m - 1];
    }
  }

  /** A pick in `[0, i]` for the next index `i` keeps the picks fitting. */
  lemma PicksFitMore(n: nat, picks: seq<nat>, j: nat)
    requires PicksFit(n, picks)
    requires |picks| + 1 < n && j <= n - 1 - |picks|
    ensures PicksFit(n, picks + [j])
  {
    var more := picks + [j];
    forall k | 0 <= k < |more|
      ensures k + 1 < n && more[k] <= n - 1 - k
    {
      if k < |picks| {
        assert more[k] == picks[k];
      }
    }
  }

  /** One more pick extends a pass by one swap. */
  lemma SwapsStep<T>(s: seq<T>, picks: seq<nat>, j: nat)
    requires PicksFit(|s|, picks) && PicksFit(|s|, picks + [j])
    requires |picks| + 1 < |s| && j <= |s| - 1 - |picks|
    ensures Swaps(s, picks + [j], |picks| + 1) ==
      SwapAt(Swaps(s, picks, |picks|), |s| - 1 - |picks|, j)
  {
    SwapsExtend(s, picks, j, |picks|);
    assert (picks + [j])[|picks|] == j;
  }

  /** `[array[i], array[j]] = [array[j], array[i]]`. */
  method Swap<T>(a: array<T>, i: nat, j: nat)
    requires i < a.Length && j < a.Length
    modifies a
    ensures a[..] == SwapAt(old(a[..]), i, j)
    ensures multiset(a[..]) == multiset(old(a[..]))
  {
    a[i], a[j] := a[j], a[i];
  }

  /** Fisher-Yates shuffle in place: `Math.random()` is a choice of `j` in
      `[0, i]`; `picks` records the choices. The array ends up a permutation
      of what it held. */
  method Shuffle<T>(a: array<T>) returns (ghost picks: seq<nat>)
    modifies a
    ensures PicksFit(a.Length, picks)
    ensures |picks| == if a.Length == 0 then 0 else a.Length - 1
    ensures a[..] == Swaps(old(a[..]), picks, |picks|)
    ensures multiset(a[..]) == multiset(old(a[..]))
  {
    picks := [];
    var i := a.Length - 1;
    while i > 0
      invariant -1 <= i < a.Length
      invariant a.Length == 0 ==> i == -1
      invariant |picks| == a.Length - 1 - i
      invariant PicksFit(a.Length, picks)
      invariant a[..] == Swaps(old(a[..]), picks, |picks|)
      invariant multiset(a[..]) == multiset(old(a[..]))
    {
      var j :| 0 <= j <= i;
      PicksFitMore(a.Length, picks, j);
      SwapsStep(old(a[..]), picks, j);
      Swap(a, i, j);
      picks := picks + [j];
      i := i - 1;
    }
  }

  /** The positional `map` at the end of `distributeRoles`: player `k` keeps
      its id and name and gets `roles[k]`, or no role when the list is too
      short. */
  function Deal(players: seq<Player>, roles: seq<Role>): (r: seq<Player>)
    ensures |r| == |players|
    ensures forall k :: 0 <= k < |r| ==>
      r[k].id == players[k].id && r[k].name == players[k].name &&
      r[k].role == (if k < |roles| then Some(roles[k]) else None)
  {
    seq(|players|, k requires 0 <= k < |players| =>
      Player(players[k].id, players[k].name, if k < |roles| then Some(roles[k]) else None))
  }

  /** Dealing a list as long as the roster gives every player a role, and
      the roles dealt, read in player order, are the list itself. */
  lemma DealComplete(players: seq<Player>, roles: seq<Role>)
    requires |roles| == |players|
    ensures AllRoled(Deal(players, roles))
    ensures RolesOf(Deal(players, roles)) == roles
  {
  }

  /** `distributeRoles`: build the role list, shuffle it and deal it. `dealt`
      is the shuffled list. */
  method DistributeRoles(players: seq<Player>, cfg: RoleConfig)
    returns (r: seq<Player>, ghost dealt: seq<Role>)
    ensures |dealt| == Total(cfg) && multiset(dealt) == RoleMultiset(cfg)
    ensures r == Deal(players, dealt)
    ensures |r| == |players|
    ensures forall k :: 0 <= k < |r| ==> r[k].id == players[k].id && r[k].name == players[k].name
    ensures forall k :: 0 <= k < |r| ==> (r[k].role.Some? <==> k < Total(cfg))
    ensures |players| == Total(cfg) ==>
      AllRoled(r) && multiset(RolesOf(r)) == RoleMultiset(cfg)
  {
    var roles := BuildRoles(cfg);
    RoleListIsConfigured(cfg);
    var a := new Role[|roles|](i requires 0 <= i < |roles| => roles[i]);
    assert a[..] == roles;
    ghost var picks := Shuffle(a);
    dealt := a[..];
    r := Deal(players, a[..]);
    if |players| == Total(cfg) {
      DealComplete(players, dealt);
    }
  }

  /** `validateRoleConfig`: the configuration fits a player count exactly
      when its role list has one role per player. */
  function ValidateRoleConfig(playerCount: nat, cfg: RoleConfig): (ok: bool)
    ensures ok <==> |RoleList(cfg)| == playerCount
  {
    RoleListIsConfigured(cfg);
    Total(cfg) == playerCount
  }
}

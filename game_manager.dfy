/** The in-memory room registry (server/src/gameManager.ts): room codes,
    the per-room transitions as functions on `Game` values, and the
    `Registry` class that owns the map from code to room. */
module GameManager {
  import opened Types
  import RoleDistributor

  // ---------------------------------------------------------------- codes

  /** The 32 characters a room code is drawn from: upper-case letters and
      digits without I, O, 0 and 1. */
  const Alphabet: string := "ABCDEFGHJKLMNPQRSTUVWXYZ23456789"

  const CodeLength: nat := 6

  predicate IsCode(c: string)
  {
    |c| == CodeLength && forall k :: 0 <= k < |c| ==> c[k] in Alphabet
  }

  /** `generateCode`: six picks from the alphabet, each a choice standing
      for `Math.floor(Math.random() * chars.length)`. */
  method GenerateCode() returns (code: string)
    ensures IsCode(code)
  {
    code := "";
    var i := 0;
    while i < CodeLength
      invariant 0 <= i <= CodeLength
      invariant |code| == i
      invariant forall k :: 0 <= k < i ==> code[k] in Alphabet
    {
      var pick :| 0 <= pick < |Alphabet|;
      code := code + [Alphabet[pick]];
      i := i + 1;
    }
  }

  /** `String.prototype.toUpperCase` on one character, for ASCII letters. */
  function UpperChar(c: char): char
  {
    if 'a' <= c <= 'z' then (c as int - 32) as char else c
  }

  /** `toUpperCase` on an ASCII string: no lower-case letter is left, and
      every character that is not one stays as it was. */
  function Upper(s: string): (r: string)
    ensures |r| == |s|
    ensures forall k :: 0 <= k < |r| ==> !('a' <= r[k] <= 'z')
    ensures forall k :: 0 <= k < |s| && !('a' <= s[k] <= 'z') ==> r[k] == s[k]
    ensures forall k :: 0 <= k < |s| && 'a' <= s[k] <= 'z' ==> r[k] as int == s[k] as int - 32
  {
    seq(|s|, k requires 0 <= k < |s| => UpperChar(s[k]))
  }

  /** Upper-casing a second time changes nothing. */
  lemma UpperIdempotent(s: string)
    ensures Upper(Upper(s)) == Upper(s)
  {
    forall k | 0 <= k < |s|
      ensures Upper(Upper(s))[k] == Upper(s)[k]
    {
      var c := s[k];
      if 'a' <= c <= 'z' {
        assert UpperChar(c) == (c as int - 32) as char;
        assert !('a' <= UpperChar(c) <= 'z');
      }
    }
  }

  /** No character of the alphabet is a lower-case letter. */
  lemma AlphabetIsUpper()
    ensures forall i :: 0 <= i < |Alphabet| ==> !('a' <= Alphabet[i] <= 'z')
  {
  }

  /** A generated code is already upper case, so it is its own lookup key. */
  lemma CodeIsUpper(c: string)
    requires IsCode(c)
    ensures Upper(c) == c
  {
    AlphabetIsUpper();
    forall k | 0 <= k < |c|
      ensures Upper(c)[k] == c[k]
    {
      var i :| 0 <= i < |Alphabet| && Alphabet[i] == c[k];
    }
  }

  // ----------------------------------------------------- room transitions

  predicate HasId(ps: seq<Player>, id: string)
  {
    exists k :: 0 <= k < |ps| && ps[k].id == id
  }

  predicate DistinctIds(ps: seq<Player>)
  {
    forall i, j :: 0 <= i < j < |ps| ==> ps[i].id != ps[j].id
  }

  /** What every room in the registry satisfies: no more players than role
      slots, no connection id twice, and once started every player holds a
      role. */
  predicate Fits(g: Game)
  {
    |g.players| <= Total(g.roleConfig) && DistinctIds(g.players) && (g.started ==> AllRoled(g.players))
  }

  /** `joinGame` on a room that exists: refused once started or full; a
      connection id already present gets the room back unchanged; otherwise
      the player is appended. */
  function Join(g: Game, p: Player): (r: Option<Game>)
    ensures r.None? <==> g.started || |g.players| >= Total(g.roleConfig)
    ensures r.Some? ==> |r.value.players| <= Total(g.roleConfig)
    ensures r.Some? ==> HasId(r.value.players, p.id)
    ensures r.Some? ==> r.value == g.(players := r.value.players)
    ensures r.Some? ==> g.players <= r.value.players && |r.value.players| <= |g.players| + 1
    ensures r.Some? && HasId(g.players, p.id) ==> r.value == g
    ensures r.Some? && !HasId(g.players, p.id) ==> r.value.players == g.players + [p]
  {
    if g.started || |g.players| >= Total(g.roleConfig) then None
    else if HasId(g.players, p.id) then Some(g)
    else
      assert (g.players + [p])[|g.players|] == p;
      Some(g.(players := g.players + [p]))
  }

  /** Joining keeps the room invariant. */
  lemma JoinFits(g: Game, p: Player)
    requires Fits(g)
    ensures Join(g, p).Some? ==> Fits(Join(g, p).value)
  {
    if Join(g, p).Some? && !HasId(g.players, p.id) {
      var ps := g.players + [p];
      forall i, j | 0 <= i < j < |ps|
        ensures ps[i].id != ps[j].id
      {
        if j == |g.players| {
          assert ps[i] == g.players[i];
        }
      }
    }
  }

  /** The same connection joining twice: the second join adds nothing; it
      only fails when the first one filled the room. */
  lemma JoinTwice(g: Game, p: Player)
    requires Join(g, p).Some?
    ensures var g' := Join(g, p).value;
      Join(g', p) == if |g'.players| >= Total(g.roleConfig) then None else Some(g')
  {
  }

  /** `players.filter(p => p.id !== playerId)`. */
  function Remove(ps: seq<Player>, id: string): (r: seq<Player>)
    ensures |r| <= |ps|
    ensures !HasId(r, id)
    ensures forall q :: q in r <==> q in ps && q.id != id
  {
    if ps == [] then []
    else if ps[0].id == id then Remove(ps[1..], id)
    else
      assert forall q :: q in ps <==> q == ps[0] || q in ps[1..];
      [ps[0]] + Remove(ps[1..], id)
  }

  /** Removing an id that is absent changes nothing. */
  lemma {:induction false} RemoveAbsent(ps: seq<Player>, id: string)
    requires !HasId(ps, id)
    ensures Remove(ps, id) == ps
  {
    if ps != [] {
      assert ps[0].id != id;
      assert !HasId(ps[1..], id) by {
        forall k | 0 <= k < |ps[1..]| ensures ps[1..][k].id != id {
          assert ps[1..][k] == ps[k + 1];
        }
      }
      RemoveAbsent(ps[1..], id);
      assert ps == [ps[0]] + ps[1..];
    }
  }

  /** Removal works piece by piece, so the players kept stay in their
      relative order. */
  lemma {:induction false} RemoveConcat(a: seq<Player>, b: seq<Player>, id: string)
    ensures Remove(a + b, id) == Remove(a, id) + Remove(b, id)
  {
    if a == [] {
      assert a + b == b;
    } else {
      assert (a + b)[0] == a[0];
      assert (a + b)[1..] == a[1..] + b;
      RemoveConcat(a[1..], b, id);
    }
  }

  lemma DistinctTail(ps: seq<Player>)
    requires ps != [] && DistinctIds(ps)
    ensures DistinctIds(ps[1..]) && !HasId(ps[1..], ps[0].id)
  {
    var tail := ps[1..];
    forall i, j | 0 <= i < j < |tail| ensures tail[i].id != tail[j].id {
      assert tail[i] == ps[i + 1] && tail[j] == ps[j + 1];
    }
    forall k | 0 <= k < |tail| ensures tail[k].id != ps[0].id {
      assert tail[k] == ps[k + 1];
    }
  }

  lemma DistinctCons(x: Player, rest: seq<Player>)
    requires DistinctIds(rest) && !HasId(rest, x.id)
    ensures DistinctIds([x] + rest)
  {
    var r := [x] + rest;
    forall i, j | 0 <= i < j < |r| ensures r[i].id != r[j].id {
      assert r[j] == rest[j - 1];
      if i > 0 {
        assert r[i] == rest[i - 1];
      }
    }
  }

  /** Removal keeps distinct ids distinct. */
  lemma {:induction false} RemoveDistinct(ps: seq<Player>, id: string)
    requires DistinctIds(ps)
    ensures DistinctIds(Remove(ps, id))
  {
    if ps != [] {
      var tail := ps[1..];
      DistinctTail(ps);
      RemoveDistinct(tail, id);
      if ps[0].id != id {
        var rest := Remove(tail, id);
        assert !HasId(rest, ps[0].id) by {
          forall k | 0 <= k < |rest| ensures rest[k].id != ps[0].id {
            assert rest[k] in tail;
          }
        }
        DistinctCons(ps[0], rest);
      }
    }
  }

  /** `removePlayer` on a room that exists. */
  function WithoutPlayer(g: Game, id: string): (r: Game)
    ensures r == g.(players := r.players)
    ensures !HasId(r.players, id)
    ensures forall q :: q in r.players <==> q in g.players && q.id != id
  {
    g.(players := Remove(g.players, id))
  }

  /** Removing a player keeps the room invariant. */
  lemma RemoveFits(g: Game, id: string)
    requires Fits(g)
    ensures Fits(WithoutPlayer(g, id))
  {
    RemoveDistinct(g.players, id);
    var ps := WithoutPlayer(g, id).players;
    forall k | 0 <= k < |ps| ensures g.started ==> ps[k].role.Some? {
      assert ps[k] in g.players;
    }
  }

  /** `restartGame` on a room its host asked to restart: every player keeps
      id and name and loses its role, and the room is back in the lobby. */
  function Restart(g: Game): (r: Game)
    ensures r == g.(players := r.players, started := false)
  {
    g.(players := seq(|g.players|, k requires 0 <= k < |g.players| =>
      Player(g.players[k].id, g.players[k].name, None)), started := false)
  }

  /** Restarting keeps the roster, by id and name, in order, and strips
      every role. */
  lemma RestartKeepsRoster(g: Game)
    ensures |Restart(g).players| == |g.players|
    ensures forall k :: 0 <= k < |g.players| ==>
      Restart(g).players[k].id == g.players[k].id &&
      Restart(g).players[k].name == g.players[k].name &&
      Restart(g).players[k].role.None?
  {
  }

  /** Restarting keeps the room invariant. */
  lemma RestartFits(g: Game)
    requires Fits(g)
    ensures Fits(Restart(g))
  {
  }

  /** Whether `startGame` by `requester` goes ahead on this room: the
      requester is the host, the room is a lobby, and the configuration
      validates against the player count, so the lobby admits no one else. */
  function CanStart(g: Game, requester: string): (ok: bool)
    ensures ok <==>
      g.hostId == requester && !g.started && RoleDistributor.ValidateRoleConfig(|g.players|, g.roleConfig)
    ensures ok ==> forall p :: Join(g, p).None?
  {
    g.hostId == requester && !g.started && |g.players| == Total(g.roleConfig)
  }

  /** The roster `after` is `before` with roles dealt: same ids and names in
      the same places, every player holding a role, and the roles held
      being exactly the configured ones. */
  predicate Dealt(before: seq<Player>, after: seq<Player>, cfg: RoleConfig)
  {
    |after| == |before| &&
    (forall k :: 0 <= k < |after| ==> after[k].id == before[k].id && after[k].name == before[k].name) &&
    AllRoled(after) &&
    multiset(RolesOf(after)) == RoleMultiset(cfg)
  }

  /** A started room whose roster was dealt from a room that could start
      satisfies the room invariant, and cannot be started again. */
  lemma StartFits(g: Game, requester: string, ps: seq<Player>)
    requires Fits(g) && CanStart(g, requester)
    requires Dealt(g.players, ps, g.roleConfig)
    ensures Fits(g.(players := ps, started := true))
    ensures !CanStart(g.(players := ps, started := true), requester)
  {
    assert forall i, j :: 0 <= i < j < |ps| ==> ps[i].id == g.players[i].id && ps[j].id == g.players[j].id;
  }

  /** One entry of `getAllRoles`'s result. */
  datatype Reveal = Reveal(name: string, role: string)

  /** `getAllRoles`' positional map: name and role, 'unknown' when unset. */
  function Reveals(ps: seq<Player>): (r: seq<Reveal>)
    ensures |r| == |ps|
    ensures forall k :: 0 <= k < |ps| ==> r[k].name == ps[k].name
  {
    seq(|ps|, k requires 0 <= k < |ps| =>
      Reveal(ps[k].name, if ps[k].role.Some? then RoleName(ps[k].role.value) else "unknown"))
  }

  /** On a dealt roster no entry falls back to 'unknown': each one names
      the role the player holds. */
  lemma RevealsDealt(ps: seq<Player>)
    requires AllRoled(ps)
    ensures forall k :: 0 <= k < |ps| ==>
      Reveals(ps)[k].role == RoleName(RolesOf(ps)[k]) && Reveals(ps)[k].role != "unknown"
  {
    forall k | 0 <= k < |ps|
      ensures Reveals(ps)[k].role == RoleName(RolesOf(ps)[k]) && Reveals(ps)[k].role != "unknown"
    {
      var r := RolesOf(ps)[k];
      assert RoleName(r) != "unknown" by {
        match r
        case Mafia =>
        case Doktor =>
        case Kurva =>
        case Policajac =>
        case Civil =>
      }
    }
  }

  /** The entry for a code: lookups upper-case the code first, so a room
      is found exactly when some spelling-insensitive key matches. */
  function Lookup(games: map<string, Game>, code: string): (r: Option<Game>)
    ensures r.Some? <==> Upper(code) in games
    ensures r.Some? ==> r.value in games.Values && r.value == games[Upper(code)]
  {
    if Upper(code) in games then Some(games[Upper(code)]) else None
  }

  /** Lookups ignore case: any spelling of a code finds the same room as its
      upper-case form. */
  lemma LookupIgnoresCase(games: map<string, Game>, code: string)
    ensures Lookup(games, code) == Lookup(games, Upper(code))
  {
    UpperIdempotent(code);
  }

  // ---------------------------------------------------------- the registry

  /** The module-level `games` map and the functions that change it. */
  class Registry {
    var games: map<string, Game>

    /** Every room is filed under its own code, which is a generated code,
        and satisfies the room invariant. */
    ghost predicate Valid()
      reads this
    {
      forall c :: c in games ==>
        games[c].code == c && games[c].id == c && IsCode(c) && Fits(games[c])
    }

    /** Whether some code is still free; the retry loop of
        `generateUniqueCode` only ends when one is. */
    ghost predicate HasFreeCode()
      reads this
    {
      exists c :: IsCode(c) && c !in games
    }

    constructor ()
      ensures Valid() && games == map[]
    {
      games := map[];
    }

    /** `generateUniqueCode`: generate a code; the retries until a code not
        in use comes up are one choice among the free codes. */
    method GenerateUniqueCode() returns (code: string)
      requires HasFreeCode()
      ensures IsCode(code) && code !in games
    {
      code := GenerateCode();
      if code in games {
        code :| IsCode(code) && code !in games;
      }
    }

    /** `createGame`: a new lobby under a fresh code, with no players. */
    method CreateGame(hostId: string, roleConfig: RoleConfig) returns (game: Game)
      requires Valid() && HasFreeCode()
      modifies this
      ensures Valid()
      ensures IsCode(game.code) && game.code !in old(games)
      ensures game == Game(game.code, game.code, hostId, [], roleConfig, false)
      ensures games == old(games)[game.code := game]
    {
      var code := GenerateUniqueCode();
      game := Game(code, code, hostId, [], roleConfig, false);
      games := games[code := game];
    }

    /** `getGame`: the room filed under the upper-cased code, if any. */
    function GetGame(code: string): (g: Option<Game>)
      reads this
      requires Valid()
      ensures g.Some? <==> Upper(code) in games
      ensures g.Some? ==> g.value == games[Upper(code)]
      ensures g.Some? ==> g.value.code == Upper(code) && IsCode(g.value.code) && Fits(g.value)
    {
      Lookup(games, code)
    }

    /** `joinGame`: no room, a started room or a full room refuses; the same
        connection id again gets the room unchanged; otherwise the player
        is appended. Other rooms are untouched. */
    method JoinGame(code: string, player: Player) returns (g: Option<Game>)
      requires Valid()
      modifies this
      ensures Valid()
      ensures var k := Upper(code);
        g.None? <==> k !in old(games) || old(games)[k].started ||
                     |old(games)[k].players| >= Total(old(games)[k].roleConfig)
      ensures g.None? ==> games == old(games)
      ensures var k := Upper(code);
        g.Some? ==> g == Join(old(games)[k], player) && games == old(games)[k := g.value]
      ensures var k := Upper(code);
        g.Some? && HasId(old(games)[k].players, player.id) ==> games == old(games)
    {
      var k := Upper(code);
      if k !in games {
        return None;
      }
      var game := games[k];
      g := Join(game, player);
      if g.Some? {
        JoinFits(game, player);
        games := games[k := g.value];
      }
    }

    /** `removePlayer`: every entry with that id leaves the room's roster;
        a missing room gives `None`. */
    method RemovePlayer(code: string, playerId: string) returns (g: Option<Game>)
      requires Valid()
      modifies this
      ensures Valid()
      ensures g.None? <==> Upper(code) !in old(games)
      ensures g.None? ==> games == old(games)
      ensures var k := Upper(code);
        g.Some? ==> g.value == WithoutPlayer(old(games)[k], playerId) &&
                    games == old(games)[k := g.value]
    {
      var k := Upper(code);
      if k !in games {
        return None;
      }
      var game := WithoutPlayer(games[k], playerId);
      RemoveFits(games[k], playerId);
      games := games[k := game];
      g := Some(game);
    }

    /** `startGame`: only the host, only in the lobby, only with a full
        roster; then roles are dealt and the room is started. */
    method StartGame(code: string, hostId: string) returns (g: Option<Game>)
      requires Valid()
      modifies this
      ensures Valid()
      ensures var k := Upper(code);
        g.Some? <==> k in old(games) && CanStart(old(games)[k], hostId)
      ensures g.None? ==> games == old(games)
      ensures var k := Upper(code);
        g.Some? ==>
          g.value == old(games)[k].(players := g.value.players, started := true) &&
          Dealt(old(games)[k].players, g.value.players, g.value.roleConfig) &&
          games == old(games)[k := g.value]
    {
      var k := Upper(code);
      if k !in games {
        return None;
      }
      var game := games[k];
      if game.hostId != hostId || game.started {
        return None;
      }
      if |game.players| != Total(game.roleConfig) {
        return None;
      }
      var players, dealt := RoleDistributor.DistributeRoles(game.players, game.roleConfig);
      var started := game.(players := players, started := true);
      StartFits(game, hostId, players);
      games := games[k := started];
      g := Some(started);
    }

    /** `restartGame`: only the host; strips roles and returns the room to
        the lobby whether or not it had started. */
    method RestartGame(code: string, hostId: string) returns (g: Option<Game>)
      requires Valid()
      modifies this
      ensures Valid()
      ensures var k := Upper(code);
        g.Some? <==> k in old(games) && old(games)[k].hostId == hostId
      ensures g.None? ==> games == old(games)
      ensures var k := Upper(code);
        g.Some? ==> g.value == Restart(old(games)[k]) && games == old(games)[k := g.value]
    {
      var k := Upper(code);
      if k !in games || games[k].hostId != hostId {
        return None;
      }
      var game := Restart(games[k]);
      RestartFits(games[k]);
      games := games[k := game];
      g := Some(game);
    }

    /** `getAllRoles`: for the host of a started room, every player's name
        and role in roster order; never 'unknown', since a started room has
        dealt every role. */
    function GetAllRoles(code: string, hostId: string): (r: Option<seq<Reveal>>)
      reads this
      requires Valid()
      ensures var k := Upper(code);
        r.Some? <==> k in games && games[k].hostId == hostId && games[k].started
      ensures var k := Upper(code);
        r.Some? ==>
          AllRoled(games[k].players) && |r.value| == |games[k].players| &&
          forall i :: 0 <= i < |r.value| ==>
            r.value[i] == Reveal(games[k].players[i].name, RoleName(RolesOf(games[k].players)[i]))
    {
      var k := Upper(code);
      if k !in games || games[k].hostId != hostId || !games[k].started then None
      else
        RevealsDealt(games[k].players);
        Some(Reveals(games[k].players))
    }

    /** `deleteGame`: drops that code's room, if any, and nothing else. */
    method DeleteGame(code: string)
      requires Valid()
      modifies this
      ensures Valid()
      ensures games == old(games) - {Upper(code)}
    {
      games := games - {Upper(code)};
    }
  }
}

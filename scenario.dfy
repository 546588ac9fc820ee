/** A client of the registry: a room for three (one mafia, one doktor, one
    civil) fills up, starts, refuses a fourth player and a second start, and
    shows its host every role. Only the registry's contracts are used. */
module Scenario {
  import opened Types
  import opened GameManager

  lemma SomeCode()
    ensures IsCode("AAAAAA")
  {
    assert forall k :: 0 <= k < 6 ==> "AAAAAA"[k] == Alphabet[0];
  }

  /** A fresh registry holding one lobby, for one mafia, one doktor and one
      civil, whose three places are taken by A, B and C. */
  method ThreePlayerRoom() returns (reg: Registry, code: string)
    ensures fresh(reg) && reg.Valid()
    ensures code in reg.games && IsCode(code) && Upper(code) == code
    ensures reg.games[code] == Game(code, code, "a",
      [Player("a", "A", None), Player("b", "B", None), Player("c", "C", None)],
      RoleConfig(1, 1, 0, 0, 1), false)
  {
    reg := new Registry();
    SomeCode();
    var game := reg.CreateGame("a", RoleConfig(1, 1, 0, 0, 1));
    code := game.code;
    CodeIsUpper(code);
    var a, b, c := Player("a", "A", None), Player("b", "B", None), Player("c", "C", None);
    assert !HasId([a], "b") && !HasId([a, b], "c") by {
      assert "a" != "b" && "a" != "c" && "b" != "c" by {
        assert "a"[0] != "b"[0] && "a"[0] != "c"[0] && "b"[0] != "c"[0];
      }
    }
    var joined := reg.JoinGame(code, a);
    joined := reg.JoinGame(code, b);
    joined := reg.JoinGame(code, c);
  }

  /** The full room refuses a fourth player, starts once, refuses a second
      start and shows its host every role. `dealt` is the roles the room
      dealt, in roster order. */
  method FullRoom() returns (shown: seq<Reveal>, ghost dealt: seq<Role>)
    ensures |shown| == 3 && |dealt| == 3
    ensures shown[0].name == "A" && shown[1].name == "B" && shown[2].name == "C"
    ensures multiset(dealt) == multiset{Mafia, Doktor, Civil}
    ensures forall k :: 0 <= k < 3 ==> shown[k].role == RoleName(dealt[k])
  {
    var reg, code := ThreePlayerRoom();
    var roster := reg.games[code].players;

    var fourth := reg.JoinGame(code, Player("d", "D", None));
    assert fourth.None? && reg.games[code].players == roster;

    assert CanStart(reg.games[code], "a");
    var started := reg.StartGame(code, "a");
    var room := started.value;
    assert reg.games[code] == room && room.started && room.hostId == "a";
    assert Dealt(roster, room.players, RoleConfig(1, 1, 0, 0, 1));
    var again := reg.StartGame(code, "a");
    assert again.None?;

    var roles := reg.GetAllRoles(code, "a");
    shown := roles.value;
    dealt := RolesOf(room.players);
    assert RoleMultiset(RoleConfig(1, 1, 0, 0, 1)) == multiset{Mafia, Doktor, Civil};
  }
}

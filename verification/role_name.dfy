/** `formatRoleName` from the helper module: turns a role constant such as
    `ROLE_SUPER_ADMIN` into the display text `Super Admin`. */
module RoleName {
  import opened Text
  import opened Lists

  /** `replace(/^ROLE_/, '')`: one leading `ROLE_` is dropped, nothing else. */
  function StripRolePrefix(name: string): string {
    if StartsWith(name, "ROLE_") then name[5..] else name
  }

  /** `word.charAt(0).toUpperCase() + word.slice(1)`. */
  function Capitalize(w: string): string {
    if |w| == 0 then "" else [UpperChar(w[0])] + w[1..]
  }

  function CapitalizeAll(ws: seq<string>): (r: seq<string>)
    ensures |r| == |ws|
    ensures forall k :: 0 <= k < |ws| ==> r[k] == Capitalize(ws[k])
  {
    seq(|ws|, k requires 0 <= k < |ws| => Capitalize(ws[k]))
  }

  /** The helper as written: strip the prefix, lower-case, split on `_`,
      capitalise each piece, join with single spaces. */
  function FormatRoleName(name: string): (r: string)
    ensures r == WordCase(ToLower(StripRolePrefix(name)), true)
  {
    PipelineIsWordCase(ToLower(StripRolePrefix(name)));
    Join(CapitalizeAll(Split(ToLower(StripRolePrefix(name)), '_')), ' ')
  }

  /** Reference definition, one character at a time: `_` becomes a space,
      the character at the start of a word is upper-cased, the others are
      kept. `atStart` says whether `s` begins a word. */
  function WordCase(s: string, atStart: bool): (r: string)
    decreases |s|
  {
    if |s| == 0 then ""
    else if s[0] == '_' then " " + WordCase(s[1..], true)
    else [if atStart then UpperChar(s[0]) else s[0]] + WordCase(s[1..], false)
  }

  /** The split-capitalise-join pipeline computes `WordCase`. The second
      conclusion is the same pipeline with the first piece left alone. */
  lemma {:induction false} PipelineIsWordCase(s: string)
    ensures Join(CapitalizeAll(Split(s, '_')), ' ') == WordCase(s, true)
    ensures Join([Split(s, '_')[0]] + CapitalizeAll(Split(s, '_')[1..]), ' ') == WordCase(s, false)
    decreases |s|
  {
    if |s| > 0 {
      PipelineIsWordCase(s[1..]);
      var t := Split(s[1..], '_');
      var caps := CapitalizeAll(t);
      if s[0] == '_' {
        assert Split(s, '_') == [""] + t;
        assert CapitalizeAll([""] + t) == [""] + caps;
        assert ([""] + caps)[1..] == caps;
        assert ([""] + t)[1..] == t;
        assert [([""] + t)[0]] + CapitalizeAll(t) == [""] + caps;
      } else {
        var x := s[0];
        var tail := CapitalizeAll(t[1..]);
        assert Split(s, '_') == [[x] + t[0]] + t[1..];
        assert Split(s, '_')[1..] == t[1..];
        assert CapitalizeAll([[x] + t[0]] + t[1..]) == [[UpperChar(x)] + t[0]] + tail;
        JoinConsFirst(UpperChar(x), t[0], tail, ' ');
        JoinConsFirst(x, t[0], tail, ' ');
        assert [t[0]] + tail == [Split(s[1..], '_')[0]] + CapitalizeAll(Split(s[1..], '_')[1..]);
      }
    }
  }

  /** `WordCase` character by character. */
  lemma {:induction false} WordCasePointwise(s: string, atStart: bool)
    ensures |WordCase(s, atStart)| == |s|
    ensures forall i :: 0 <= i < |s| ==>
      WordCase(s, atStart)[i] ==
        if s[i] == '_' then ' '
        else if (i == 0 && atStart) || (i > 0 && s[i - 1] == '_') then UpperChar(s[i])
        else s[i]
    decreases |s|
  {
    if |s| > 0 {
      WordCasePointwise(s[1..], s[0] == '_');
      var w := WordCase(s, atStart);
      var w' := WordCase(s[1..], s[0] == '_');
      assert w[1..] == w';
      forall i | 1 <= i < |s|
        ensures w[i] == if s[i] == '_' then ' '
          else if (i == 0 && atStart) || (i > 0 && s[i - 1] == '_') then UpperChar(s[i])
          else s[i]
      {
        assert w[i] == w'[i - 1];
        assert s[1..][i - 1] == s[i];
        if i - 1 > 0 {
          assert s[1..][i - 2] == s[i - 1];
        }
      }
    }
  }

  lemma {:induction false} CountLower(s: string, c: char)
    requires !IsUpper(c) && !IsLower(c)
    ensures Occurrences(ToLower(s), c) == Occurrences(s, c)
    decreases |s|
  {
    if |s| > 0 {
      CountLower(s[1..], c);
      assert ToLower(s)[1..] == ToLower(s[1..]);
    }
  }

  /** Every piece of a split is made of characters of the input. */
  lemma {:induction false} SplitPiecesFromInput(s: string, c: char)
    ensures forall k, x :: 0 <= k < |Split(s, c)| && x in Split(s, c)[k] ==> x in s
    decreases |s|
  {
    if |s| > 0 {
      SplitPiecesFromInput(s[1..], c);
      var rest := Split(s[1..], c);
      var parts := Split(s, c);
      forall k, x | 0 <= k < |parts| && x in parts[k] ensures x in s {
        if s[0] == c {
          if k > 0 {
            assert parts[k] == rest[k - 1];
            assert x in s[1..];
          }
        } else if k == 0 {
          assert parts[0] == [s[0]] + rest[0];
          if x != s[0] {
            assert x in rest[0];
            assert x in s[1..];
          }
        } else {
          assert parts[k] == rest[k];
          assert x in s[1..];
        }
      }
    }
  }

  /** The display character at position `i` of a stripped role name `s`:
      `_` becomes a space, the first character of a piece is upper-cased,
      any other character is lower-cased. */
  function DisplayChar(s: string, i: nat): char
    requires i < |s|
  {
    if s[i] == '_' then ' '
    else if i == 0 || s[i - 1] == '_' then UpperChar(LowerChar(s[i]))
    else LowerChar(s[i])
  }

  /** `formatRoleName` character by character. With `s` the input minus
      one leading `ROLE_`: the output has the length of `s`, turns each `_`
      into a space, upper-cases the first character of each piece and
      lower-cases every other character, so no `_` is left. */
  lemma FormatRoleNamePointwise(name: string)
    ensures |FormatRoleName(name)| == |StripRolePrefix(name)|
    ensures '_' !in FormatRoleName(name)
    ensures forall i :: 0 <= i < |StripRolePrefix(name)| ==>
      FormatRoleName(name)[i] == DisplayChar(StripRolePrefix(name), i)
  {
    var s := StripRolePrefix(name);
    var low := ToLower(s);
    var r := FormatRoleName(name);
    PipelineIsWordCase(low);
    WordCasePointwise(low, true);
    assert r == WordCase(low, true);
    assert |r| == |s|;
    forall i | 0 <= i < |s|
      ensures r[i] == DisplayChar(s, i)
      ensures r[i] != '_'
    {
      assert low[i] == LowerChar(s[i]);
      if i > 0 {
        assert low[i - 1] == LowerChar(s[i - 1]);
      }
      if s[i] != '_' {
        assert LowerChar(s[i]) != '_';
        assert UpperChar(LowerChar(s[i])) != '_';
      }
    }
  }

  /** The output is the input less five characters exactly when the input
      starts with `ROLE_`. */
  lemma FormatRoleNameLength(name: string)
    ensures |FormatRoleName(name)| == if StartsWith(name, "ROLE_") then |name| - 5 else |name|
  {
    FormatRoleNamePointwise(name);
  }

  /** When the input has no spaces, splitting the output on spaces gives one
      word per `_`-separated piece of the stripped input: the capitalised
      pieces themselves. */
  lemma FormatRoleNameWords(name: string)
    requires ' ' !in name
    ensures Split(FormatRoleName(name), ' ') == CapitalizeAll(Split(ToLower(StripRolePrefix(name)), '_'))
    ensures |Split(FormatRoleName(name), ' ')| == |Split(StripRolePrefix(name), '_')|
  {
    var s := StripRolePrefix(name);
    var low := ToLower(s);
    var pieces := Split(low, '_');
    var words := CapitalizeAll(pieces);
    assert ' ' !in s;
    assert ' ' !in low;
    SplitPiecesFromInput(low, '_');
    forall k, j | 0 <= k < |words| && 0 <= j < |words[k]| ensures words[k][j] != ' ' {
      assert pieces[k][j] in pieces[k];
    }
    SplitJoin(words, ' ');
    SplitCount(low, '_');
    SplitCount(s, '_');
    CountLower(s, '_');
  }

  /** The examples the helper is written for. */
  lemma FormatAdminExample()
    ensures FormatRoleName("ROLE_ADMIN") == "Admin"
  {
    assert StripRolePrefix("ROLE_ADMIN") == "ADMIN";
    assert ToLower("ADMIN") == "admin";
    PipelineIsWordCase("admin");
    assert WordCase("admin", true) == "Admin";
  }

  lemma FormatSuperAdminExample()
    ensures FormatRoleName("ROLE_SUPER_ADMIN") == "Super Admin"
  {
    assert StripRolePrefix("ROLE_SUPER_ADMIN") == "SUPER_ADMIN";
    LowerSuperAdmin();
    CaseSuperAdmin();
    PipelineIsWordCase("super_admin");
  }

  lemma LowerSuperAdmin()
    ensures ToLower("SUPER_ADMIN") == "super_admin"
  {
  }

  /** An underscore starts a fresh word whatever came before it. */
  lemma {:induction false} WordCaseAtUnderscore(a: string, b: string, atStart: bool)
    ensures WordCase(a + "_" + b, atStart) == WordCase(a, atStart) + " " + WordCase(b, true)
    decreases |a|
  {
    if |a| > 0 {
      assert (a + "_" + b)[0] == a[0];
      assert (a + "_" + b)[1..] == a[1..] + "_" + b;
      WordCaseAtUnderscore(a[1..], b, a[0] == '_');
    } else {
      assert a + "_" + b == "_" + b;
    }
  }

  /** Inside a word, text without `_` is kept as it is. */
  lemma {:induction false} WordCaseInsideWord(s: string)
    requires forall k :: 0 <= k < |s| ==> s[k] != '_'
    ensures WordCase(s, false) == s
    decreases |s|
  {
    if |s| > 0 {
      WordCaseInsideWord(s[1..]);
    }
  }

  lemma CaseSuper()
    ensures WordCase("super", true) == "Super"
  {
    WordCaseInsideWord("uper");
    assert "super"[1..] == "uper";
    assert WordCase("super", true) == "S" + "uper";
  }

  lemma CaseAdmin()
    ensures WordCase("admin", true) == "Admin"
  {
    WordCaseInsideWord("dmin");
    assert "admin"[1..] == "dmin";
    assert WordCase("admin", true) == "A" + "dmin";
  }

  lemma CaseSuperAdmin()
    ensures WordCase("super_admin", true) == "Super Admin"
  {
    assert "super_admin" == "super" + "_" + "admin";
    WordCaseAtUnderscore("super", "admin", true);
    CaseSuper();
    CaseAdmin();
    assert "Super" + " " + "Admin" == "Super Admin";
  }

  /** An empty piece survives as a leading space. */
  lemma FormatEmptyPieceExample()
    ensures FormatRoleName("ROLE__X") == " X"
  {
    assert StripRolePrefix("ROLE__X") == "_X";
    assert ToLower("_X") == "_x";
    PipelineIsWordCase("_x");
    assert "_x" == "" + "_" + "x";
    WordCaseAtUnderscore("", "x", true);
    assert WordCase("x", true) == "X";
  }

  /** Only one leading `ROLE_` is removed; a second one is formatted. */
  lemma FormatDoublePrefixExample()
    ensures FormatRoleName("ROLE_ROLE_X") == "Role X"
  {
    LowerRoleX();
    PipelineIsWordCase("role_x");
    CaseRoleX();
  }

  lemma LowerRoleX()
    ensures ToLower(StripRolePrefix("ROLE_ROLE_X")) == "role_x"
  {
    assert StripRolePrefix("ROLE_ROLE_X") == "ROLE_X";
  }

  lemma CaseRoleX()
    ensures WordCase("role_x", true) == "Role X"
  {
    assert "role_x" == "role" + "_" + "x";
    WordCaseAtUnderscore("role", "x", true);
    WordCaseInsideWord("ole");
    assert "role"[1..] == "ole";
    assert WordCase("role", true) == "R" + "ole";
    assert WordCase("x", true) == "X";
    assert "R" + "ole" + " " + "X" == "Role X";
  }
}

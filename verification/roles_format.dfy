/** The `roles` provider's text: role names in the member's order joined by
    ", ", or "-" when there are none. */
module RolesFormat {
  import opened DiscordState

  const Separator: string := ", "

  /** The text shown for a member without roles (and for a non-member). */
  const NoRoles: string := "-"

  function Names(roles: seq<Role>): (names: seq<string>)
    ensures |names| == |roles|
    ensures forall i :: 0 <= i < |roles| ==> names[i] == roles[i].name
  {
    seq(|roles|, i requires 0 <= i < |roles| => roles[i].name)
  }

  /** The names with one separator between neighbours and none at either end. */
  function Join(names: seq<string>): string
    decreases |names|
  {
    if |names| == 0 then ""
    else if |names| == 1 then names[0]
    else names[0] + Separator + Join(names[1..])
  }

  /** The reference rendering of a role list. */
  function RolesText(roles: seq<Role>): string {
    if |roles| == 0 then NoRoles else Join(Names(roles))
  }

  /** The separator starts at position `i` of `text`. */
  predicate SeparatorAt(text: string, i: int) {
    0 <= i < |text| - 1 && text[i] == Separator[0] && text[i + 1] == Separator[1]
  }

  /** No occurrence of the separator inside a name. */
  predicate SeparatorFree(name: string) {
    forall i | 0 <= i < |name| :: !SeparatorAt(name, i)
  }

  /** Cuts a text at every ", ", scanning from the left: the inverse of `Join`
      for separator-free names. */
  function Split(text: string): (parts: seq<string>)
    ensures |parts| >= 1
    decreases |text|
  {
    if |text| == 0 then [""]
    else if |text| >= 2 && text[..2] == Separator then [""] + Split(text[2..])
    else
      var rest := Split(text[1..]);
      [[text[0]] + rest[0]] + rest[1..]
  }

  /** A separator-free text is a single part. */
  lemma {:induction false} SplitSeparatorFree(x: string)
    requires SeparatorFree(x)
    ensures Split(x) == [x]
    decreases |x|
  {
    if |x| == 0 {
    } else {
      if |x| >= 2 {
        assert !SeparatorAt(x, 0);
      }
      assert SeparatorFree(x[1..]) by {
        forall i | 0 <= i < |x[1..]|
          ensures !SeparatorAt(x[1..], i)
        {
          assert !SeparatorAt(x, i + 1);
        }
      }
      SplitSeparatorFree(x[1..]);
      assert [x[0]] + x[1..] == x;
    }
  }

  /** Splitting stops exactly at the separator that follows a separator-free name. */
  lemma {:induction false} SplitAfterName(x: string, rest: string)
    requires SeparatorFree(x)
    ensures Split(x + Separator + rest) == [x] + Split(rest)
    decreases |x|
  {
    var t := x + Separator + rest;
    if |x| == 0 {
      assert t[..2] == Separator;
      assert t[2..] == rest;
    } else {
      if |x| >= 2 {
        assert !SeparatorAt(x, 0);
        assert t[..2] == x[..2];
      } else {
        assert t[1] == ',';
      }
      assert SeparatorFree(x[1..]) by {
        forall i | 0 <= i < |x[1..]|
          ensures !SeparatorAt(x[1..], i)
        {
          assert !SeparatorAt(x, i + 1);
        }
      }
      assert t[1..] == x[1..] + Separator + rest;
      SplitAfterName(x[1..], rest);
      assert [x[0]] + x[1..] == x;
    }
  }

  /** Joining then splitting gives back the names, in order, whenever no name
      contains the separator. */
  lemma {:induction false} JoinSplitRoundTrip(names: seq<string>)
    requires |names| >= 1
    requires forall i :: 0 <= i < |names| ==> SeparatorFree(names[i])
    ensures Split(Join(names)) == names
    decreases |names|
  {
    if |names| == 1 {
      SplitSeparatorFree(names[0]);
    } else {
      SplitAfterName(names[0], Join(names[1..]));
      JoinSplitRoundTrip(names[1..]);
      assert [names[0]] + names[1..] == names;
    }
  }

  /** Appending one name adds one separator and that name at the end. */
  lemma {:induction false} JoinSnoc(names: seq<string>, last: string)
    requires |names| >= 1
    ensures Join(names + [last]) == Join(names) + Separator + last
    decreases |names|
  {
    if |names| == 1 {
      assert (names + [last])[1..] == [last];
    } else {
      assert (names + [last])[1..] == names[1..] + [last];
      JoinSnoc(names[1..], last);
    }
  }

  /** The `roles` text of a non-empty list names every role in order, with
      nothing else, whenever the names are separator-free; "-" stands for the
      empty list. */
  lemma RolesTextRoundTrip(roles: seq<Role>)
    requires forall i :: 0 <= i < |roles| ==> SeparatorFree(roles[i].name)
    ensures |roles| == 0 ==> RolesText(roles) == NoRoles
    ensures |roles| > 0 ==> Split(RolesText(roles)) == Names(roles)
  {
    if |roles| > 0 {
      JoinSplitRoundTrip(Names(roles));
    }
  }

  /** The provider's StringBuilder loop: append each name and, except after the
      last, the separator. */
  method RenderRoles(roles: seq<Role>) returns (text: string)
    ensures text == RolesText(roles)
  {
    if |roles| == 0 {
      return NoRoles;
    }
    ghost var names := Names(roles);
    var builder := "";
    var size := |roles|;
    for i := 0 to size
      invariant builder == if i == 0 then "" else Join(names[..i]) + (if i < size then Separator else "")
    {
      var roleName := roles[i].name;
      if i > 0 {
        JoinSnoc(names[..i], roleName);
        assert names[..i] + [roleName] == names[..i + 1];
      } else {
        assert names[..1] == [roleName];
      }
      builder := builder + roleName;
      if i < size - 1 {
        builder := builder + Separator;
      }
    }
    assert names[..size] == names;
    text := builder;
  }
}

/**
 * The names restored indices get (internal/elastic/es.go): the rename pattern takes the whole name
 * and the replacement puts the restore key and the repository in front of it.
 */
module RestoreNames {
  import opened Wrappers

  /** How much of a text, behind a dollar sign, refers to a group: there are the groups 0 and 1. */
  function Reference(text: string): (n: nat)
    ensures n <= |text|
  {
    if text == "" then 0
    else if text[0] == '1' then 1
    else if text[0] == '0' then 1 + (if |text| > 1 && text[1] in {'0', '1'} then Reference(text[1..]) else 0)
    else 0
  }

  /** A rename replacement, for a pattern whose one group takes the whole name: a backslash takes the next
      character as it is, a dollar sign refers to a group, and anything else behind them is an error. */
  function Expand(replacement: string, group: string): Option<string>
    decreases |replacement|
  {
    if replacement == "" then Some("")
    else if replacement[0] == '\\' then
      if |replacement| == 1 then None
      else match Expand(replacement[2..], group) case None => None case Some(rest) => Some([replacement[1]] + rest)
    else if replacement[0] == '$' then
      var n := Reference(replacement[1..]);
      if n == 0 then None
      else match Expand(replacement[1 + n..], group) case None => None case Some(rest) => Some(group + rest)
    else match Expand(replacement[1..], group) case None => None case Some(rest) => Some([replacement[0]] + rest)
  }

  // ---------------------------------------------------------------- the request text

  function HexDigit(c: char): Option<int> {
    if '0' <= c <= '9' then Some(c as int - '0' as int)
    else if 'a' <= c <= 'f' then Some(c as int - 'a' as int + 10)
    else if 'A' <= c <= 'F' then Some(c as int - 'A' as int + 10)
    else None
  }

  /** The character an escape stands for, and how much text that takes behind the backslash. */
  function Escaped(text: string): Option<(char, nat)>
    ensures Escaped(text).Some? ==> 1 <= Escaped(text).value.1 <= |text|
  {
    if text == "" then None
    else if text[0] in {'"', '\\', '/'} then Some((text[0], 1))
    else if text[0] == 'n' then Some(('\n', 1))
    else if text[0] == 'r' then Some(('\r', 1))
    else if text[0] == 't' then Some(('\t', 1))
    else if text[0] == 'b' then Some((8 as char, 1))
    else if text[0] == 'f' then Some((12 as char, 1))
    else if text[0] == 'u' && |text| >= 5 then
      match (HexDigit(text[1]), HexDigit(text[2]), HexDigit(text[3]), HexDigit(text[4]))
      case (Some(a), Some(b), Some(c), Some(d)) =>
        var code := 4096 * a + 256 * b + 16 * c + d;
        if 0 <= code < 0xD800 || 0xE000 <= code < 0x10000 then Some((code as char, 5)) else None
      case _ => None
    else None
  }

  /** What a text means between the quotes of a JSON string; a quote would end it, and control characters
      must not be there. */
  function Unquoted(text: string): Option<string>
    decreases |text|
  {
    if text == "" then Some("")
    else if text[0] == '"' || text[0] < ' ' then None
    else if text[0] == '\\' then
      match Escaped(text[1..])
      case None => None
      case Some((c, n)) =>
        match Unquoted(text[1 + n..]) case None => None case Some(rest) => Some([c] + rest)
    else match Unquoted(text[1..]) case None => None case Some(rest) => Some([text[0]] + rest)
  }

  /** No character that a JSON string treats in a special way. */
  predicate Unescaped(text: string) {
    forall i | 0 <= i < |text| :: text[i] != '"' && text[i] != '\\' && text[i] >= ' '
  }

  lemma {:induction false} UnquotedShrinks(text: string)
    requires Unquoted(text).Some?
    ensures |Unquoted(text).value| <= |text|
    ensures if Unescaped(text) then Unquoted(text).value == text else |Unquoted(text).value| < |text|
    decreases |text|
  {
    if text == "" {
    } else if text[0] == '\\' {
      UnquotedShrinks(text[1 + Escaped(text[1..]).value.1..]);
    } else {
      UnquotedShrinks(text[1..]);
      assert text == [text[0]] + text[1..];
      assert Unescaped(text) <==> Unescaped(text[1..]);
    }
  }

  lemma {:induction false} UnescapedStays(text: string)
    requires Unescaped(text)
    ensures Unquoted(text) == Some(text)
  {
    if text == "" {
    } else {
      UnescapedStays(text[1..]);
      assert text == [text[0]] + text[1..];
    }
  }

  // ---------------------------------------------------------------- the rename

  /** No character that a replacement treats in a special way. */
  predicate Plain(text: string) {
    '$' !in text && '\\' !in text
  }

  function Replacement(key: string, repository: string): string {
    key + "_" + repository + "_$1"
  }

  function Prefix(key: string, repository: string): string {
    key + "_" + repository + "_"
  }

  /** The name an index is restored under. */
  function Target(key: string, repository: string, index: string): string {
    Prefix(key, repository) + index
  }

  lemma {:induction false} ExpandsAfter(plain: string, rest: string, group: string)
    requires Plain(plain) && Expand(rest, group).Some?
    ensures Expand(plain + rest, group) == Some(plain + Expand(rest, group).value)
  {
    var value := Expand(rest, group).value;
    if plain == "" {
      assert plain + rest == rest && plain + value == value;
    } else {
      assert (plain + rest)[1..] == plain[1..] + rest;
      assert plain[0] in plain;
      ExpandsAfter(plain[1..], rest, group);
      assert [plain[0]] + (plain[1..] + value) == plain + value;
    }
  }

  lemma GroupAlone(group: string)
    ensures Expand("$1", group) == Some(group)
  {
    assert "$1"[1..] == "1" && "$1"[2..] == "";
    assert Reference("1") == 1;
    assert group + "" == group;
  }

  /** With a group of one character, what is special makes the expansion shorter. */
  lemma {:induction false} SpecialShortens(front: string, group: string)
    requires front != "" && front[|front| - 1] == '_' && |group| == 1 && Expand(front + "$1", group).Some?
    ensures |Expand(front + "$1", group).value| <= |front| + 1
    ensures !Plain(front) ==> |Expand(front + "$1", group).value| <= |front|
    decreases |front|
  {
    var all := front + "$1";
    if front[0] == '\\' {
      assert all[2..] == front[2..] + "$1";
      ShortensRest(front, 2, group);
    } else if front[0] == '$' {
      var n := Reference(all[1..]);
      ReferenceEnds(front[1..], "$1");
      assert all[1..] == front[1..] + "$1";
      assert all[1 + n..] == front[1 + n..] + "$1";
      ShortensRest(front, 1 + n, group);
    } else {
      assert all[1..] == front[1..] + "$1";
      ShortensRest(front, 1, group);
    }
  }

  lemma ShortensRest(front: string, n: nat, group: string)
    requires 0 < n <= |front| && front[|front| - 1] == '_' && |group| == 1
    requires Expand(front[n..] + "$1", group).Some?
    ensures |Expand(front[n..] + "$1", group).value| <= |front| - n + 1
    ensures !Plain(front[n..]) ==> |Expand(front[n..] + "$1", group).value| <= |front| - n
    decreases |front|, 0
  {
    if n == |front| {
      assert front[n..] + "$1" == "$1";
      GroupAlone(group);
    } else {
      SpecialShortens(front[n..], group);
    }
  }

  /** A reference does not reach past an underscore. */
  lemma {:induction false} ReferenceEnds(front: string, rest: string)
    requires front == "" ==> rest == "" || rest[0] !in {'0', '1'}
    requires front != "" ==> front[|front| - 1] == '_'
    ensures Reference(front + rest) <= |front|
    ensures front != "" ==> Reference(front + rest) < |front|
  {
    if front == "" {
      assert front + rest == rest;
    } else if |front| == 1 {
      assert (front + rest)[0] == '_';
    } else {
      assert (front + rest)[1..] == front[1..] + rest;
      ReferenceEnds(front[1..], rest);
    }
  }

  /** With a group of one character, an expansion is no longer than the replacement. */
  lemma {:induction false} ExpandsShort(text: string, group: string)
    requires |group| == 1 && Expand(text, group).Some?
    ensures if Plain(text) then Expand(text, group).value == text else |Expand(text, group).value| < |text|
    decreases |text|
  {
    if text == "" {
    } else if text[0] == '\\' {
      ExpandsShort(text[2..], group);
    } else if text[0] == '$' {
      ExpandsShort(text[1 + Reference(text[1..])..], group);
    } else {
      ExpandsShort(text[1..], group);
      assert text == [text[0]] + text[1..];
      assert Plain(text) <==> Plain(text[1..]);
    }
  }

  /** The name Elasticsearch gives the index: the replacement is read out of the request, then expanded. */
  function Renamed(key: string, repository: string, index: string): Option<string> {
    match Unquoted(Replacement(key, repository))
    case None => None
    case Some(replacement) => Expand(replacement, index)
  }

  ghost predicate YieldsTarget(key: string, repository: string) {
    forall index: string | index != "" ::
      Renamed(key, repository, index) == Some(key + "_" + repository + "_" + index)
  }

  /** No character that the request or the replacement treats in a special way. */
  predicate Literal(text: string) {
    Plain(text) && Unescaped(text)
  }

  /** The rename yields the target name of every index exactly when key and repository are literal. */
  lemma RenameYieldsTarget(key: string, repository: string)
    ensures YieldsTarget(key, repository) <==> Literal(key) && Literal(repository)
  {
    var text := Replacement(key, repository);
    assert text == key + ("_" + repository + "_$1");
    assert Unescaped(text) <==> Unescaped(key) && Unescaped(repository) by {
      PartsUnescaped(key, "_" + repository + "_$1");
      PartsUnescaped("_" + repository, "_$1");
      PartsUnescaped("_", repository);
    }
    forall index: string
      ensures Target(key, repository, index) == key + "_" + repository + "_" + index
    {
      RenameIsInjective(key, repository, index, index);
    }
    if Unescaped(text) {
      UnescapedStays(text);
      ExpandYieldsTarget(key, repository);
    } else if Unquoted(text).Some? {
      UnquotedShrinks(text);
      EscapesMissTarget(key, repository);
    } else {
      assert Renamed(key, repository, "i") == None;
    }
  }

  lemma PartsUnescaped(a: string, b: string)
    ensures Unescaped(a + b) <==> Unescaped(a) && Unescaped(b)
  {
    assert forall i | 0 <= i < |a| :: (a + b)[i] == a[i];
    assert forall i | 0 <= i < |b| :: (a + b)[|a| + i] == b[i];
  }

  /** With an escape in the request the replacement is too short for every name. */
  lemma EscapesMissTarget(key: string, repository: string)
    requires var text := Replacement(key, repository); Unquoted(text).Some? && |Unquoted(text).value| < |text|
    ensures !YieldsTarget(key, repository)
  {
    var replacement := Unquoted(Replacement(key, repository)).value;
    if YieldsTarget(key, repository) {
      assert Renamed(key, repository, "i") == Some(Target(key, repository, "i"));
      assert Renamed(key, repository, "j") == Some(Target(key, repository, "j"));
      ExpandsShort(replacement, "i");
      ExpandsShort(replacement, "j");
      RenameIsInjective(key, repository, "i", "j");
    }
  }

  /** Without one, exactly when neither has a character that a replacement treats in a special way. */
  lemma ExpandYieldsTarget(key: string, repository: string)
    ensures (forall index: string | index != "" ::
               Expand(Replacement(key, repository), index) == Some(Target(key, repository, index)))
            <==> Plain(key) && Plain(repository)
  {
    var prefix := Prefix(key, repository);
    assert Replacement(key, repository) == prefix + "$1";
    if Plain(key) && Plain(repository) {
      forall index | index != ""
        ensures Expand(Replacement(key, repository), index) == Some(Target(key, repository, index))
      {
        GroupAlone(index);
        ExpandsAfter(prefix, "$1", index);
      }
    } else {
      NotPlain(key, repository);
      if Expand(prefix + "$1", "i").Some? {
        SpecialShortens(prefix, "i");
      }
      assert Expand(Replacement(key, repository), "i") != Some(Target(key, repository, "i"));
    }
  }

  lemma NotPlain(key: string, repository: string)
    requires !Plain(key) || !Plain(repository)
    ensures !Plain(Prefix(key, repository))
  {
    var prefix := Prefix(key, repository);
    assert forall i | 0 <= i < |key| :: prefix[i] == key[i];
    assert forall i | 0 <= i < |repository| :: prefix[|key| + 1 + i] == repository[i];
  }

  /** Within one repository two indices never get the same name. */
  lemma RenameIsInjective(key: string, repository: string, a: string, b: string)
    ensures Target(key, repository, a) == Target(key, repository, b) <==> a == b
    ensures Target(key, repository, a) == key + "_" + repository + "_" + a
  {
    var p := Prefix(key, repository);
    assert Target(key, repository, a)[|p|..] == a && Target(key, repository, b)[|p|..] == b;
  }

  /** Across repositories two restores share a name exactly when the unprefixed names agree. */
  lemma SharedTarget(key: string, r1: string, i1: string, r2: string, i2: string)
    ensures Target(key, r1, i1) == Target(key, r2, i2) <==> r1 + "_" + i1 == r2 + "_" + i2
  {
    var k := key + "_";
    assert Target(key, r1, i1) == k + (r1 + "_" + i1) && Target(key, r2, i2) == k + (r2 + "_" + i2);
    assert (k + (r1 + "_" + i1))[|k|..] == r1 + "_" + i1;
    assert (k + (r2 + "_" + i2))[|k|..] == r2 + "_" + i2;
  }

  /** Some indices of the two repositories are restored under one name. */
  ghost predicate CanCollide(key: string, r1: string, r2: string) {
    exists i1, i2 :: i1 != "" && i2 != "" && Target(key, r1, i1) == Target(key, r2, i2)
  }

  /**
   * Two repositories can collide exactly when one name, with an underscore behind it, begins the
   * other with an underscore behind it.
   */
  lemma CollidingRepositories(key: string, r1: string, r2: string)
    ensures CanCollide(key, r1, r2) <==> r1 + "_" <= r2 + "_" || r2 + "_" <= r1 + "_"
  {
    if r1 + "_" <= r2 + "_" {
      LongerIndexCollides(key, r1, r2);
    } else if r2 + "_" <= r1 + "_" {
      LongerIndexCollides(key, r2, r1);
    }
    forall i1, i2 | Target(key, r1, i1) == Target(key, r2, i2)
      ensures r1 + "_" <= r2 + "_" || r2 + "_" <= r1 + "_"
    {
      SharedTarget(key, r1, i1, r2, i2);
      BothPrefixes(r1 + "_", r2 + "_", r1 + "_" + i1);
    }
  }

  lemma BothPrefixes(a: string, b: string, whole: string)
    requires a <= whole && b <= whole
    ensures a <= b || b <= a
  {
    assert a == whole[..|a|] && b == whole[..|b|];
  }

  lemma LongerIndexCollides(key: string, r1: string, r2: string)
    requires r1 + "_" <= r2 + "_"
    ensures CanCollide(key, r1, r2) && CanCollide(key, r2, r1)
  {
    var rest := (r2 + "_")[|r1 + "_"|..];
    assert r1 + "_" + rest == r2 + "_";
    assert r1 + "_" + (rest + "i") == r2 + "_" + "i";
    SharedTarget(key, r1, rest + "i", r2, "i");
  }

  /** Position of the first underscore, or the length when there is none. */
  function UnderscoreAt(s: string): (k: nat)
    ensures k <= |s|
  {
    if s == "" || s[0] == '_' then 0 else 1 + UnderscoreAt(s[1..])
  }

  lemma {:induction false} FirstUnderscore(plain: string, rest: string)
    requires '_' !in plain
    ensures UnderscoreAt(plain + "_" + rest) == |plain|
  {
    if plain == "" {
    } else {
      assert (plain + "_" + rest)[1..] == plain[1..] + "_" + rest;
      FirstUnderscore(plain[1..], rest);
    }
  }

  /** Repository names without an underscore never collide. */
  lemma NoUnderscoreNoCollision(key: string, r1: string, i1: string, r2: string, i2: string)
    requires '_' !in r1 && '_' !in r2
    ensures Target(key, r1, i1) == Target(key, r2, i2) <==> r1 == r2 && i1 == i2
  {
    SharedTarget(key, r1, i1, r2, i2);
    var a, b := r1 + "_" + i1, r2 + "_" + i2;
    FirstUnderscore(r1, i1);
    FirstUnderscore(r2, i2);
    assert r1 == a[..|r1|] && i1 == a[|r1| + 1..];
    assert r2 == b[..|r2|] && i2 == b[|r2| + 1..];
  }

  /** The worker polls the recovery of the index name it was given, which is never the target. */
  lemma PolledNameIsNotTarget(key: string, repository: string, index: string)
    ensures Target(key, repository, index) != index
  {
    assert |Target(key, repository, index)| > |index|;
  }
}

/** The few pieces of PHP's runtime that the training core relies on:
    nullable values, `trim`, `explode(',', ...)` and the loose `in_array`. */
module Php {

  /** A nullable value (a PHP `null` or a database NULL is `None`). */
  datatype Option<+T> = None | Some(value: T)

  /** The characters PHP's `trim` strips by default:
      space, tab, line feed, carriage return, NUL and vertical tab. */
  predicate IsTrimmable(c: char) {
    c == ' ' || c == '\t' || c == '\n' || c == '\r' || c == 0 as char || c == 11 as char
  }

  predicate AllTrimmable(s: string) {
    forall k :: 0 <= k < |s| ==> IsTrimmable(s[k])
  }

  /** Neither end of `s` is a trimmable character. */
  predicate Trimmed(s: string) {
    s == [] || (!IsTrimmable(s[0]) && !IsTrimmable(s[|s| - 1]))
  }

  /** `ltrim`: the longest suffix of `s` that does not start with a trimmable character;
      everything dropped is trimmable. */
  function TrimLeft(s: string): (r: string)
    ensures |r| <= |s| && r == s[|s| - |r|..]
    ensures forall k :: 0 <= k < |s| - |r| ==> IsTrimmable(s[k])
    ensures r == [] || !IsTrimmable(r[0])
  {
    if s != [] && IsTrimmable(s[0]) then TrimLeft(s[1..]) else s
  }

  /** `rtrim`: the longest prefix of `s` that does not end with a trimmable character;
      everything dropped is trimmable. */
  function TrimRight(s: string): (r: string)
    ensures |r| <= |s| && r == s[..|r|]
    ensures AllTrimmable(s[|r|..])
    ensures r == [] || !IsTrimmable(r[|r| - 1])
  {
    if s != [] && IsTrimmable(s[|s| - 1]) then
      var r := TrimRight(s[..|s| - 1]);
      assert s[..|s| - 1][..|r|] == s[..|r|];
      assert s[|r|..] == s[..|s| - 1][|r|..] + [s[|s| - 1]];
      r
    else s
  }

  /** `trim`: strips trimmable characters from both ends. */
  function Trim(s: string): (r: string)
    ensures |r| <= |s|
    ensures Trimmed(r)
  {
    TrimRight(TrimLeft(s))
  }

  lemma {:induction false} TrimLeftStripsPadding(pad: string, s: string)
    requires AllTrimmable(pad)
    requires s == [] || !IsTrimmable(s[0])
    ensures TrimLeft(pad + s) == s
  {
    if pad != [] {
      assert (pad + s)[1..] == pad[1..] + s;
      TrimLeftStripsPadding(pad[1..], s);
    } else {
      assert pad + s == s;
    }
  }

  lemma {:induction false} TrimRightStripsPadding(s: string, pad: string)
    requires AllTrimmable(pad)
    requires s == [] || !IsTrimmable(s[|s| - 1])
    ensures TrimRight(s + pad) == s
  {
    if pad != [] {
      var n := |s + pad|;
      assert (s + pad)[..n - 1] == s + pad[..|pad| - 1];
      assert (s + pad)[n - 1] == pad[|pad| - 1];
      TrimRightStripsPadding(s, pad[..|pad| - 1]);
    } else {
      assert s + pad == s;
    }
  }

  /** Trimming removes exactly the padding around a value that has none of its own. */
  lemma TrimStripsPadding(left: string, s: string, right: string)
    requires AllTrimmable(left) && AllTrimmable(right) && Trimmed(s)
    ensures Trim(left + s + right) == s
  {
    if s == [] {
      assert left + s + right == left + right;
      TrimLeftStripsPadding(left + right, []);
      assert TrimLeft(left + right + []) == [];
      assert left + right + [] == left + right;
    } else {
      assert left + s + right == left + (s + right);
      TrimLeftStripsPadding(left, s + right);
      TrimRightStripsPadding(s, right);
    }
  }

  /** PHP's `explode(',', s)`: the pieces of `s` between commas, in order.
      There is always at least one piece (`explode(',', "")` is `[""]`). */
  function Explode(s: string): (r: seq<string>)
    ensures |r| >= 1
    ensures forall k :: 0 <= k < |r| ==> ',' !in r[k]
  {
    if s == [] then [""]
    else
      var rest := Explode(s[1..]);
      if s[0] == ',' then [""] + rest
      else [[s[0]] + rest[0]] + rest[1..]
  }

  /** PHP's `implode(',', parts)`, the inverse of `Explode`. */
  function Join(parts: seq<string>): string
    requires |parts| >= 1
  {
    if |parts| == 1 then parts[0] else parts[0] + "," + Join(parts[1..])
  }

  lemma {:induction false} JoinExplode(s: string)
    ensures Join(Explode(s)) == s
  {
    if s != [] {
      var rest := Explode(s[1..]);
      JoinExplode(s[1..]);
      if s[0] == ',' {
        assert ([""] + rest)[1..] == rest;
        assert s == "" + "," + s[1..];
      } else {
        var r := [[s[0]] + rest[0]] + rest[1..];
        if |rest| == 1 {
          assert s == [s[0]] + s[1..];
        } else {
          assert r[1..] == rest[1..];
          assert Join(rest) == rest[0] + "," + Join(rest[1..]);
          assert s == [s[0]] + s[1..];
          assert Join(r) == ([s[0]] + rest[0]) + "," + Join(rest[1..]);
        }
      }
    }
  }

  /** Exploding a comma-free string prefixing the rest glues it to the rest's first piece. */
  lemma {:induction false} ExplodePrefix(p: string, t: string)
    requires ',' !in p
    ensures Explode(p + t) == [p + Explode(t)[0]] + Explode(t)[1..]
  {
    if p != [] {
      assert (p + t)[0] == p[0] && (p + t)[1..] == p[1..] + t;
      ExplodePrefix(p[1..], t);
      assert [p[0]] + (p[1..] + Explode(t)[0]) == p + Explode(t)[0];
    } else {
      var e := Explode(t);
      assert p + t == t && p + e[0] == e[0];
      assert e == [e[0]] + e[1..];
    }
  }

  lemma {:induction false} ExplodeJoin(parts: seq<string>)
    requires |parts| >= 1
    requires forall k :: 0 <= k < |parts| ==> ',' !in parts[k]
    ensures Explode(Join(parts)) == parts
  {
    if |parts| == 1 {
      ExplodePrefix(parts[0], "");
      assert parts[0] + "" == parts[0];
    } else {
      var rest := Join(parts[1..]);
      ExplodeJoin(parts[1..]);
      ExplodeAfterComma(rest);
      assert Join(parts) == parts[0] + "," + rest;
      assert parts[0] + "," + rest == parts[0] + ("," + rest);
      ExplodePrefix(parts[0], "," + rest);
      assert parts[0] + "" == parts[0];
      assert parts == [parts[0]] + parts[1..];
    }
  }

  /** A leading comma splits off an empty first piece. */
  lemma ExplodeAfterComma(s: string)
    ensures Explode("," + s) == [""] + Explode(s)
  {
  }

  /** PHP's loose `==` between a nullable string and a string: `null` equals only `""`.
      (PHP also compares two numeric strings by value; subdivision codes are not numeric.) */
  predicate LooseEquals(a: Option<string>, b: string) {
    match a
    case None => b == ""
    case Some(x) => x == b
  }

  /** PHP's `in_array($needle, $haystack)` with its default loose comparison. */
  predicate InArray(needle: Option<string>, haystack: seq<string>) {
    exists k :: 0 <= k < |haystack| && LooseEquals(needle, haystack[k])
  }

  /** A user without a subdivision passes the loose membership test as soon as the
      list has an empty entry, which a trailing comma or an empty setting produces. */
  lemma NullMatchesEmptyEntry(setting: string)
    requires setting == "" || setting[|setting| - 1] == ','
    ensures InArray(None, Explode(setting))
  {
    var parts := Explode(setting);
    if setting == "" {
      assert LooseEquals(None, parts[0]);
    } else {
      var body := setting[..|setting| - 1];
      assert setting == body + ",";
      ExplodeTrailingComma(body);
      assert LooseEquals(None, parts[|parts| - 1]);
    }
  }

  lemma {:induction false} ExplodeTrailingComma(s: string)
    ensures Explode(s + ",")[|Explode(s + ",")| - 1] == ""
  {
    if s == [] {
      assert s + "," == ",";
    } else {
      assert (s + ",")[1..] == s[1..] + ",";
      ExplodeTrailingComma(s[1..]);
    }
  }
}

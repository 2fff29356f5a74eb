/** Splitting texts at a separator and joining them again. */
module Texts {

  /** `strings.Split` on a one-character separator. */
  function Split(s: string, separator: char): (r: seq<string>)
    ensures |r| >= 1
  {
    if s == "" then [""]
    else if s[0] == separator then [""] + Split(s[1..], separator)
    else
      var rest := Split(s[1..], separator);
      [[s[0]] + rest[0]] + rest[1..]
  }

  /** `strings.Join`. */
  function Join(parts: seq<string>, separator: string): string {
    if parts == [] then ""
    else if |parts| == 1 then parts[0]
    else Join(parts[..|parts| - 1], separator) + separator + parts[|parts| - 1]
  }

  predicate Without(s: string, c: char) {
    c !in s
  }

  predicate AllWithout(parts: seq<string>, c: char) {
    forall i | 0 <= i < |parts| :: Without(parts[i], c)
  }

  lemma JoinLast(parts: seq<string>, separator: string)
    requires |parts| >= 2
    ensures Join(parts, separator)
         == Join(parts[..|parts| - 1], separator) + separator + parts[|parts| - 1]
  {
  }

  lemma JoinOne(parts: seq<string>, separator: string)
    requires |parts| == 1
    ensures Join(parts, separator) == parts[0]
  {
  }

  lemma {:induction false} JoinFirst(parts: seq<string>, separator: string)
    requires |parts| >= 2
    ensures Join(parts, separator) == parts[0] + separator + Join(parts[1..], separator)
    decreases |parts|
  {
    var init, tail, last := parts[..|parts| - 1], parts[1..], parts[|parts| - 1];
    if |parts| > 2 {
      hide Join;
      JoinFirst(init, separator);
      var middle := init[1..];
      assert |tail| == |middle| + 1 && tail[|tail| - 1] == last;
      assert tail[..|tail| - 1] == middle;
      JoinLast(parts, separator);
      JoinLast(tail, separator);
      var text := Join(middle, separator);
      assert parts[0] + separator + text + separator + last == parts[0] + separator + (text + separator + last);
    } else {
      JoinOne(tail, separator);
      JoinOne(init, separator);
      JoinLast(parts, separator);
    }
  }

  lemma SplitFirst(s: string, c: char)
    requires s != ""
    ensures var rest := Split(s[1..], c);
            Split(s, c) == if s[0] == c then [""] + rest else [[s[0]] + rest[0]] + rest[1..]
  {
  }

  lemma {:induction false} SplitIsWithout(s: string, c: char)
    ensures AllWithout(Split(s, c), c)
  {
    if s != "" {
      SplitIsWithout(s[1..], c);
    }
  }

  lemma {:induction false} SplitNothing(s: string, c: char)
    requires Without(s, c)
    ensures Split(s, c) == [s]
  {
    if s != "" {
      SplitNothing(s[1..], c);
      assert s == [s[0]] + s[1..];
    }
  }

  /** The text up to the first separator is the first part. */
  lemma {:induction false} SplitOff(s: string, c: char, rest: string)
    requires Without(s, c)
    ensures Split(s + [c] + rest, c) == [s] + Split(rest, c)
  {
    hide Split;
    var all := s + [c] + rest;
    SplitFirst(all, c);
    if s == "" {
      assert all[0] == c && all[1..] == rest;
    } else {
      SplitOff(s[1..], c, rest);
      assert all[0] == s[0] && all[1..] == s[1..] + [c] + rest;
      assert s == [s[0]] + s[1..];
    }
  }

  /** Splitting a joined text gives its parts back. */
  lemma {:induction false} SplitJoin(parts: seq<string>, c: char)
    requires parts != [] && AllWithout(parts, c)
    ensures Split(Join(parts, [c]), c) == parts
  {
    hide Split;
    if |parts| == 1 {
      SplitNothing(parts[0], c);
    } else {
      JoinFirst(parts, [c]);
      SplitOff(parts[0], c, Join(parts[1..], [c]));
      SplitJoin(parts[1..], c);
    }
  }

  lemma JoinPushed(first: string, rest: seq<string>, separator: string)
    requires rest != []
    ensures Join([first] + rest, separator) == first + separator + Join(rest, separator)
  {
    JoinFirst([first] + rest, separator);
  }

  lemma JoinPrefixed(x: string, parts: seq<string>, separator: string)
    requires parts != []
    ensures Join([x + parts[0]] + parts[1..], separator) == x + Join(parts, separator)
  {
    hide Join;
    var all := [x + parts[0]] + parts[1..];
    if |parts| == 1 {
      JoinOne(all, separator);
      JoinOne(parts, separator);
    } else {
      JoinFirst(all, separator);
      JoinFirst(parts, separator);
      assert all[1..] == parts[1..];
      assert x + parts[0] + separator + Join(parts[1..], separator)
          == x + (parts[0] + separator + Join(parts[1..], separator));
    }
  }

  /** Joining the parts of a text gives it back. */
  lemma {:induction false} JoinSplit(s: string, c: char)
    ensures Join(Split(s, c), [c]) == s
  {
    hide Join, Split;
    if s == "" {
      SplitNothing(s, c);
      JoinOne([s], [c]);
    } else {
      var rest := Split(s[1..], c);
      SplitFirst(s, c);
      JoinSplit(s[1..], c);
      assert s == [s[0]] + s[1..];
      if s[0] == c {
        JoinPushed("", rest, [c]);
        assert "" + [c] + s[1..] == [c] + s[1..];
      } else {
        JoinPrefixed([s[0]], rest, [c]);
      }
    }
  }
}

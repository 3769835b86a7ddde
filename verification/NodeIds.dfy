/** Hierarchy node ids and their label escape (risk/hierarchy_placement.py). */
module NodeIds {
  import opened Wrappers

  datatype Level = FIRM | PORTFOLIO | DESK | STRATEGY | BOOK | TRADE

  /** str.replace of one character. */
  function Replace(s: string, c: char, escape: string): string {
    if s == "" then "" else (if s[0] == c then escape else [s[0]]) + Replace(s[1..], c, escape)
  }

  /** _seg: an absent label is an empty one. */
  function Seg(value: Option<string>): string {
    Replace(Replace(value.GetOr(""), '%', "%25"), '/', "%2F")
  }

  /** Reading a segment back; None where it could not have been written. */
  function Unseg(t: string): Option<string> {
    if t == "" then Some("")
    else if t[0] == '%' then
      if "%25" <= t then Prepend('%', Unseg(t[3..]))
      else if "%2F" <= t then Prepend('/', Unseg(t[3..]))
      else None
    else Prepend(t[0], Unseg(t[1..]))
  }

  function Prepend(c: char, rest: Option<string>): Option<string> {
    match rest
    case None => None
    case Some(s) => Some([c] + s)
  }

  /** The segments of one node, outermost first. */
  function Join(segments: seq<string>): string
    requires segments != []
  {
    if |segments| == 1 then segments[0] else segments[0] + "/" + Join(segments[1..])
  }

  function Segs(labels: seq<Option<string>>): (r: seq<string>)
    ensures |r| == |labels|
  {
    seq(|labels|, i requires 0 <= i < |labels| => Seg(labels[i]))
  }

  function Prefix(level: Level): string {
    match level
    case FIRM => "firm:"
    case PORTFOLIO => "portfolio:"
    case DESK => "desk:"
    case STRATEGY => "strategy:"
    case BOOK => "book:"
    case TRADE => "trade:"
  }

  /** How many labels a level's id is made of. */
  function Depth(level: Level): (n: nat)
    ensures n >= 1
  {
    match level
    case FIRM => 1
    case PORTFOLIO => 1
    case DESK => 1
    case STRATEGY => 2
    case BOOK => 3
    case TRADE => 4
  }

  /** hierarchy_node_id, given the labels its level uses. */
  function NodeId(level: Level, labels: seq<Option<string>>): string
    requires |labels| == Depth(level)
  {
    Prefix(level) + Join(Segs(labels))
  }

  // ----- the escape can be undone -----

  lemma {:induction false} ReplaceJoin(s: string, t: string, c: char, escape: string)
    ensures Replace(s + t, c, escape) == Replace(s, c, escape) + Replace(t, c, escape)
  {
    if s == "" {
      assert s + t == t;
    } else {
      assert (s + t)[1..] == s[1..] + t;
      ReplaceJoin(s[1..], t, c, escape);
    }
  }

  function Escape(s: string): string {
    Replace(Replace(s, '%', "%25"), '/', "%2F")
  }

  function EscapeChar(c: char): string {
    if c == '%' then "%25" else if c == '/' then "%2F" else [c]
  }

  /** The two replacements in turn work character by character. */
  lemma EscapeCons(c: char, s: string)
    ensures Escape([c] + s) == EscapeChar(c) + Escape(s)
  {
    var head := if c == '%' then "%25" else [c];
    assert ([c] + s)[1..] == s;
    assert Replace([c] + s, '%', "%25") == head + Replace(s, '%', "%25");
    ReplaceJoin(head, Replace(s, '%', "%25"), '/', "%2F");
    assert Replace([c], '/', "%2F") == (if c == '/' then "%2F" else [c]) + "" by {
      assert [c][1..] == "";
    }
    assert Replace("%25", '/', "%2F") == "%25" by {
      assert "%25"[1..] == "25" && "25"[1..] == "5" && "5"[1..] == "";
      assert Replace("5", '/', "%2F") == "5";
      assert Replace("25", '/', "%2F") == "25";
    }
  }

  lemma UnsegCons(c: char, t: string)
    ensures Unseg(EscapeChar(c) + t) == Prepend(c, Unseg(t))
  {
    var u := EscapeChar(c) + t;
    if c == '%' {
      assert u[3..] == t;
    } else if c == '/' {
      assert u[3..] == t;
      assert u[2] == 'F';
    } else {
      assert u[1..] == t;
    }
  }

  lemma {:induction false} EscapeUndone(s: string)
    ensures Unseg(Escape(s)) == Some(s)
  {
    if s != "" {
      assert s == [s[0]] + s[1..];
      EscapeCons(s[0], s[1..]);
      EscapeUndone(s[1..]);
      UnsegCons(s[0], Escape(s[1..]));
    }
  }

  lemma {:induction false} EscapeHasNoSlash(s: string)
    ensures '/' !in Escape(s)
  {
    if s != "" {
      assert s == [s[0]] + s[1..];
      EscapeCons(s[0], s[1..]);
      EscapeHasNoSlash(s[1..]);
    }
  }

  /** A segment reads back as its label and never contains the separator. */
  lemma SegReversible(value: Option<string>)
    ensures Unseg(Seg(value)) == Some(value.GetOr(""))
    ensures '/' !in Seg(value)
  {
    EscapeUndone(value.GetOr(""));
    EscapeHasNoSlash(value.GetOr(""));
  }

  // ----- ids are injective -----

  ghost predicate NoSlashes(segments: seq<string>) {
    forall i :: 0 <= i < |segments| ==> '/' !in segments[i]
  }

  /** Where the first segment ends. */
  lemma FirstSegment(a: string, p: string, b: string, q: string)
    requires '/' !in a && '/' !in b && a + "/" + p == b + "/" + q
    ensures a == b && p == q
  {
    var s := a + "/" + p;
    assert s[|a|] == '/' && s[|b|] == '/';
    forall i | 0 <= i < |a|
      ensures s[i] != '/'
    {
      assert s[i] == a[i] && a[i] in a;
    }
    forall i | 0 <= i < |b|
      ensures s[i] != '/'
    {
      assert s[i] == b[i] && b[i] in b;
    }
    assert |a| == |b|;
    assert s[..|a|] == a && s[..|b|] == b;
    assert s[|a| + 1..] == p && s[|b| + 1..] == q;
  }

  lemma {:induction false} JoinInjective(a: seq<string>, b: seq<string>)
    requires |a| == |b| >= 1 && NoSlashes(a) && NoSlashes(b) && Join(a) == Join(b)
    ensures a == b
  {
    if |a| > 1 {
      FirstSegment(a[0], Join(a[1..]), b[0], Join(b[1..]));
      JoinInjective(a[1..], b[1..]);
      assert a == [a[0]] + a[1..] && b == [b[0]] + b[1..];
    }
  }

  lemma PrefixDecides(a: Level, b: Level, s: string, t: string)
    requires Prefix(a) + s == Prefix(b) + t
    ensures a == b && s == t
  {
    assert (Prefix(a) + s)[0] == Prefix(a)[0] && (Prefix(b) + t)[0] == Prefix(b)[0];
    assert (Prefix(a) + s)[|Prefix(a)|..] == s && (Prefix(b) + t)[|Prefix(b)|..] == t;
  }

  /** Two nodes with one id have the same level and, absent labels read as empty ones, the same labels. */
  lemma NodeIdInjective(a: Level, labels: seq<Option<string>>, b: Level, others: seq<Option<string>>)
    requires |labels| == Depth(a) && |others| == Depth(b)
    requires NodeId(a, labels) == NodeId(b, others)
    ensures a == b && |labels| == |others|
    ensures forall i :: 0 <= i < |labels| ==> labels[i].GetOr("") == others[i].GetOr("")
  {
    PrefixDecides(a, b, Join(Segs(labels)), Join(Segs(others)));
    forall i | 0 <= i < |labels|
      ensures '/' !in Segs(labels)[i] && '/' !in Segs(others)[i]
    {
      SegReversible(labels[i]);
      SegReversible(others[i]);
    }
    JoinInjective(Segs(labels), Segs(others));
    forall i | 0 <= i < |labels|
      ensures labels[i].GetOr("") == others[i].GetOr("")
    {
      assert Seg(labels[i]) == Segs(labels)[i] == Segs(others)[i] == Seg(others[i]);
      SegReversible(labels[i]);
      SegReversible(others[i]);
    }
  }
}

/**
  The text transformations of compiler.go: `escape` (compiler.go:355-357), the two
  shortest-match scanners behind `visitText`'s regular expressions (compiler.go:529-539)
  and the line layout `visitText` writes (compiler.go:541-549).
 */
module Text {
  import opened Wrappers
  import Strings

  // ---------------------------------------------------------------------------------
  // escape

  /** `c.escape`: double every backslash, then put a backslash before every `"`. */
  function Escape(s: string): string {
    Strings.ReplaceAll(Strings.ReplaceAll(s, "\\", "\\\\"), "\"", "\\\"")
  }

  /** The escape of one character. */
  function EscapeChar(c: char): string {
    if c == '\\' then "\\\\" else if c == '"' then "\\\"" else [c]
  }

  /** Character-wise substitution of `c` by `rep`. */
  function MapChar(s: string, c: char, rep: string): string
    decreases |s|
  {
    if s == [] then [] else (if s[0] == c then rep else [s[0]]) + MapChar(s[1..], c, rep)
  }

  lemma {:induction false} ReplaceAllIsMapChar(s: string, c: char, rep: string)
    ensures Strings.ReplaceAll(s, [c], rep) == MapChar(s, c, rep)
    decreases |s|
  {
    if s != [] {
      assert Strings.StartsWith(s, [c]) <==> s[0] == c by {
        assert s[..1] == [s[0]];
      }
      ReplaceAllIsMapChar(s[1..], c, rep);
    }
  }

  lemma {:induction false} MapCharAppend(a: string, b: string, c: char, rep: string)
    ensures MapChar(a + b, c, rep) == MapChar(a, c, rep) + MapChar(b, c, rep)
    decreases |a|
  {
    if a == [] {
      assert a + b == b;
    } else {
      assert (a + b)[0] == a[0] && (a + b)[1..] == a[1..] + b;
      MapCharAppend(a[1..], b, c, rep);
    }
  }

  lemma {:induction false} EscapeByChar(s: string)
    ensures Escape(s) == if s == [] then [] else EscapeChar(s[0]) + Escape(s[1..])
  {
    ReplaceAllIsMapChar(s, '\\', "\\\\");
    var once := MapChar(s, '\\', "\\\\");
    ReplaceAllIsMapChar(once, '"', "\\\"");
    if s != [] {
      ReplaceAllIsMapChar(s[1..], '\\', "\\\\");
      var rest := MapChar(s[1..], '\\', "\\\\");
      ReplaceAllIsMapChar(rest, '"', "\\\"");
      var head := if s[0] == '\\' then "\\\\" else [s[0]];
      assert once == head + rest;
      MapCharAppend(head, rest, '"', "\\\"");
      assert MapChar(head, '"', "\\\"") == EscapeChar(s[0]) by {
        if s[0] == '\\' {
          assert head == ['\\'] + ['\\'];
          assert MapChar(['\\'], '"', "\\\"") == ['\\'];
          MapCharAppend(['\\'], ['\\'], '"', "\\\"");
        } else {
          assert MapChar(head, '"', "\\\"") == (if s[0] == '"' then "\\\"" else [s[0]]) + MapChar([], '"', "\\\"");
        }
      }
    }
  }

  /** Text with neither a backslash nor a double quote is returned unchanged. */
  lemma {:induction false} EscapeUnchanged(s: string)
    requires '\\' !in s && '"' !in s
    ensures Escape(s) == s
    decreases |s|
  {
    EscapeByChar(s);
    if s != [] {
      assert s[0] != '\\' && s[0] != '"';
      assert '\\' !in s[1..] && '"' !in s[1..];
      EscapeUnchanged(s[1..]);
      assert s == [s[0]] + s[1..];
    }
  }

  /** What a Go interpreted string literal's body reads back as: `\x` stands for `x`. */
  function Unescape(s: string): string
    decreases |s|
  {
    if s == [] then []
    else if s[0] == '\\' && |s| >= 2 then [s[1]] + Unescape(s[2..])
    else [s[0]] + Unescape(s[1..])
  }

  /** Text that can stand between double quotes: every quote and backslash is escaped. */
  predicate QuoteSafe(s: string)
    decreases |s|
  {
    s == [] ||
    (s[0] == '\\' && |s| >= 2 && QuoteSafe(s[2..])) ||
    (s[0] != '\\' && s[0] != '"' && QuoteSafe(s[1..]))
  }

  /**
    The escaped text can be put between the quotes of `{{unescaped "<!-- … -->"}}`
    (compiler.go:381) and reads back as the original.
   */
  lemma {:induction false} EscapeRoundTrip(s: string)
    ensures QuoteSafe(Escape(s))
    ensures Unescape(Escape(s)) == s
    decreases |s|
  {
    EscapeByChar(s);
    if s != [] {
      EscapeRoundTrip(s[1..]);
      var r := Escape(s[1..]);
      var e := EscapeChar(s[0]) + r;
      if s[0] == '\\' || s[0] == '"' {
        assert e[0] == '\\' && e[1] == s[0] && e[2..] == r;
      } else {
        assert e[0] == s[0] && e[1..] == r;
      }
      assert s == [s[0]] + s[1..];
    }
  }

  // ---------------------------------------------------------------------------------
  // The shortest-match scanners of `#\{(.*?)\}` and `\{\{(.*?)\}\}`

  /**
    Where the first `close` starts in `t`, if it comes before any line break: the
    lazy `(.*?)` followed by `close`, `.` not matching a newline.
   */
  function CloseAt(t: string, close: string): (r: Option<nat>)
    requires |close| > 0
    ensures r.Some? ==> r.value + |close| <= |t| && Strings.StartsWith(t[r.value..], close)
    ensures r.Some? ==> forall j :: 0 <= j < r.value ==> t[j] != '\n'
    decreases |t|
  {
    if Strings.StartsWith(t, close) then Some(0)
    else if t == [] || t[0] == '\n' then None
    else
      match CloseAt(t[1..], close)
      case None => None
      case Some(k) =>
        assert t[k + 1..] == t[1..][k..];
        Some(k + 1)
  }

  /**
    The match `CloseAt` finds is the first one, and when it finds none there is no
    closing delimiter before the first line break.
   */
  lemma {:induction false} CloseAtFirst(t: string, close: string)
    requires |close| > 0
    ensures CloseAt(t, close).Some? ==> forall j :: 0 <= j < CloseAt(t, close).value ==> !Strings.StartsWith(t[j..], close)
    ensures CloseAt(t, close).None? ==> forall j :: 0 <= j <= |t| && '\n' !in t[..j] ==> !Strings.StartsWith(t[j..], close)
    decreases |t|
  {
    if !Strings.StartsWith(t, close) && t != [] {
      if t[0] == '\n' {
        forall j | 1 <= j <= |t| ensures '\n' in t[..j] {
          assert t[..j][0] == '\n';
        }
      } else {
        CloseAtFirst(t[1..], close);
        forall j | 1 <= j <= |t| ensures t[j..] == t[1..][j - 1..] {
        }
        forall j | 1 <= j <= |t| && '\n' !in t[..j] ensures '\n' !in t[1..][..j - 1] {
          assert t[1..][..j - 1] == t[..j][1..];
        }
      }
    }
  }

  /** A piece of scanned text: kept as it is, or the inside of one match. */
  datatype Segment = Plain(text: string) | Hole(inner: string)

  /**
    The segment at the front of `s` and how many characters it takes: a match of
    `open … close` when one starts here, else the first character.
   */
  function Head(s: string, open: string, close: string): (h: (Segment, nat))
    requires |open| > 0 && |close| > 0 && s != []
    ensures 0 < h.1 <= |s|
    ensures h.0.Hole? ==> '\n' !in h.0.inner
  {
    if Strings.StartsWith(s, open) && CloseAt(s[|open|..], close).Some? then
      var k := CloseAt(s[|open|..], close).value;
      (Hole(s[|open|..][..k]), |open| + k + |close|)
    else
      (Plain([s[0]]), 1)
  }

  /** Leftmost, non-overlapping matches of `open(.*?)close`, in order. */
  function Scan(s: string, open: string, close: string): (r: seq<Segment>)
    requires |open| > 0 && |close| > 0
    ensures forall i :: 0 <= i < |r| && r[i].Hole? ==> '\n' !in r[i].inner
    decreases |s|
  {
    if s == [] then []
    else
      var h := Head(s, open, close);
      [h.0] + Scan(s[h.1..], open, close)
  }

  /** The text the segments were scanned from. */
  function Unscan(segs: seq<Segment>, open: string, close: string): string
    decreases |segs|
  {
    if segs == [] then []
    else
      SegmentText(segs[0], open, close) + Unscan(segs[1..], open, close)
  }

  /** One segment as it stood in the scanned text. */
  function SegmentText(seg: Segment, open: string, close: string): string {
    match seg
    case Plain(t) => t
    case Hole(x) => open + x + close
  }

  lemma UnscanCons(seg: Segment, rest: seq<Segment>, open: string, close: string)
    ensures Unscan([seg] + rest, open, close) == SegmentText(seg, open, close) + Unscan(rest, open, close)
  {
    assert ([seg] + rest)[1..] == rest;
  }

  /** A match of `open … close` with inside `x`, read back, is the text it was cut from. */
  lemma HoleText(s: string, open: string, k: nat, close: string)
    requires Strings.StartsWith(s, open) && |open| + k + |close| <= |s|
    requires Strings.StartsWith(s[|open|..][k..], close)
    ensures open + s[|open|..][..k] + close == s[..|open| + k + |close|]
  {
    var n := |open| + k + |close|;
    var l := open + s[|open|..][..k] + close;
    forall i | 0 <= i < n ensures l[i] == s[i] {
      if i < |open| {
        assert s[..|open|][i] == s[i];
      } else if i < |open| + k {
        assert l[i] == s[|open|..][..k][i - |open|];
      } else {
        assert s[|open|..][k..][..|close|][i - |open| - k] == s[i];
      }
    }
    assert l == s[..n];
  }

  /** The front segment stands for exactly the characters it takes. */
  lemma HeadText(s: string, open: string, close: string)
    requires |open| > 0 && |close| > 0 && s != []
    ensures var h := Head(s, open, close); SegmentText(h.0, open, close) == s[..h.1]
  {
    if Strings.StartsWith(s, open) && CloseAt(s[|open|..], close).Some? {
      HoleText(s, open, CloseAt(s[|open|..], close).value, close);
    } else {
      assert s[..1] == [s[0]];
    }
  }

  /** Scanning a non-empty text: its front segment, then the scan of what follows. */
  lemma ScanCons(s: string, open: string, close: string)
    requires |open| > 0 && |close| > 0 && s != []
    ensures var h := Head(s, open, close);
            Unscan(Scan(s, open, close), open, close) == SegmentText(h.0, open, close) + Unscan(Scan(s[h.1..], open, close), open, close)
  {
    var h := Head(s, open, close);
    var rest := Scan(s[h.1..], open, close);
    assert Scan(s, open, close) == [h.0] + rest;
    UnscanCons(h.0, rest, open, close);
  }

  /** Scanning loses nothing: the matches and the text between them make up the input. */
  lemma {:induction false} ScanRoundTrip(s: string, open: string, close: string)
    requires |open| > 0 && |close| > 0
    ensures Unscan(Scan(s, open, close), open, close) == s
    decreases |s|
  {
    if s != [] {
      var h := Head(s, open, close);
      ScanRoundTrip(s[h.1..], open, close);
      ScanCons(s, open, close);
      HeadText(s, open, close);
      assert s == s[..h.1] + s[h.1..];
    }
  }

  /** Without an opening delimiter in the text there is nothing to match. */
  lemma {:induction false} ScanAbsent(s: string, open: string, close: string)
    requires |open| > 0 && |close| > 0 && !Strings.Occurs(s, open)
    ensures forall i :: 0 <= i < |Scan(s, open, close)| ==> Scan(s, open, close)[i].Plain?
    decreases |s|
  {
    if s != [] {
      ScanAbsent(s[1..], open, close);
      assert Head(s, open, close) == (Plain([s[0]]), 1);
      assert Scan(s, open, close) == [Plain([s[0]])] + Scan(s[1..], open, close);
    }
  }

  /** textEscapeRegexp's replacement: `{{x}}` becomes `{{"{{"}}x{{"}}"}}` (compiler.go:533-535). */
  function EscapeBraces(s: string): string {
    Neutralise(Scan(s, "{{", "}}"))
  }

  function Neutralise(segs: seq<Segment>): string
    decreases |segs|
  {
    if segs == [] then []
    else
      (match segs[0] case Plain(t) => t case Hole(x) => "{{\"{{\"}}" + x + "{{\"}}\"}}") + Neutralise(segs[1..])
  }

  /** Text without `{{` is left as it is. */
  lemma EscapeBracesAbsent(s: string)
    requires !Strings.Occurs(s, "{{")
    ensures EscapeBraces(s) == s
  {
    ScanAbsent(s, "{{", "}}");
    NeutralisePlain(Scan(s, "{{", "}}"), "{{", "}}");
    ScanRoundTrip(s, "{{", "}}");
  }

  lemma {:induction false} NeutralisePlain(segs: seq<Segment>, open: string, close: string)
    requires forall i :: 0 <= i < |segs| ==> segs[i].Plain?
    ensures Neutralise(segs) == Unscan(segs, open, close)
    decreases |segs|
  {
    if segs != [] {
      NeutralisePlain(segs[1..], open, close);
    }
  }

  /** Every match is replaced by its inside framed by the two literal-printing actions. */
  lemma {:induction false} NeutraliseRenames(segs: seq<Segment>)
    ensures Neutralise(segs) == Unscan(segs, "{{\"{{\"}}", "{{\"}}\"}}")
    decreases |segs|
  {
    if segs != [] {
      NeutraliseRenames(segs[1..]);
    }
  }

  // ---------------------------------------------------------------------------------
  // Line layout

  /**
    The loop of compiler.go:541-549: every line is written, and after every line but
    the last a newline and the current indentation (`tabs`).
   */
  function Layout(value: string, tabs: string): string {
    Strings.Join(Strings.Split(value, '\n'), "\n" + tabs)
  }

  /** Without indentation the text is written exactly as it is. */
  lemma LayoutUnindented(value: string)
    ensures Layout(value, "") == value
  {
    assert "\n" + "" == ['\n'];
    Strings.JoinSplit(value, '\n');
  }

  /** A single line is written as it is, whatever the indentation. */
  lemma LayoutOneLine(value: string, tabs: string)
    requires '\n' !in value
    ensures Layout(value, tabs) == value
  {
    Strings.SplitAbsent(value, '\n');
  }
}

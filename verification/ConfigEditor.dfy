/** The line editor behind `_update_numprocs_in_config`: it rewrites the `numprocs` line of one
    `[program:x]` section and nothing else, and the number it wrote is what a reader finds. */
module ConfigEditor {
  import opened Names

  // ----- The Python string operations the editor uses -----

  /** The characters `str.strip` removes. */
  predicate IsSpace(c: char)
  {
    var u := c as int;
    9 <= u <= 13 || 28 <= u <= 32 || u == 0x85 || u == 0xA0 || u == 0x1680 || 0x2000 <= u <= 0x200A
    || u == 0x2028 || u == 0x2029 || u == 0x202F || u == 0x205F || u == 0x3000
  }

  function LStrip(s: string): string
  {
    if |s| > 0 && IsSpace(s[0]) then LStrip(s[1..]) else s
  }

  function RStrip(s: string): string
  {
    if |s| > 0 && IsSpace(s[|s| - 1]) then RStrip(s[..|s| - 1]) else s
  }

  function Strip(s: string): string { RStrip(LStrip(s)) }

  /** The position of the first c, as `split(c, 1)` uses it. */
  function IndexOf(s: string, c: char): (r: Option<nat>)
    ensures r.Some? ==> r.value < |s| && s[r.value] == c && c !in s[..r.value]
    ensures r.None? ==> c !in s
  {
    if |s| == 0 then None
    else if s[0] == c then Some(0)
    else match IndexOf(s[1..], c)
         case None => None
         case Some(i) =>
           assert s[..i + 1] == [s[0]] + s[1..][..i];
           Some(i + 1)
  }

  predicate HasPair(s: string, a: char, b: char)
  {
    exists i :: 0 <= i < |s| - 1 && s[i] == a && s[i + 1] == b
  }

  // ----- The scan -----

  function Header(program: string): string { "[program:" + program + "]" }

  predicate StartsSection(stripped: string) { "[" <= stripped }

  predicate IsKeyLine(stripped: string)
  {
    && "numprocs" <= stripped
    && var eq := IndexOf(stripped, '=');
       eq.Some? && Strip(stripped[..eq.value]) == "numprocs"
  }

  /** A value without its inline comment, which starts at a semicolon or hash after white space. */
  function Uncommented(s: string): string
  {
    if |s| <= 1 then s
    else
      var n := |s| - 1;
      var front := Uncommented(s[..n]);
      if front != s[..n] then front
      else if IsSpace(s[n - 1]) && (s[n] == ';' || s[n] == '#') then front
      else s
  }

  /** The number a reader takes from the line. */
  function ValueOf(stripped: string): Option<int>
    requires IsKeyLine(stripped)
  {
    ParseInt(Strip(Uncommented(stripped[IndexOf(stripped, '=').value + 1..])))
  }

  /** The scanning loop: the index of the line it stops at with `found` set. */
  function Locate(lines: seq<string>, header: string, i: nat, inSection: bool): (r: Option<nat>)
    requires i <= |lines|
    ensures r.Some? ==> i <= r.value < |lines|
    decreases |lines| - i
  {
    if i == |lines| then None
    else
      var stripped := Strip(lines[i]);
      if stripped == header then Locate(lines, header, i + 1, true)
      else if inSection && StartsSection(stripped) then None
      else if inSection && IsKeyLine(stripped) then Some(i)
      else Locate(lines, header, i + 1, inSection)
  }

  /** What the scan is meant to find, without the scan: the first `numprocs` line of the section that
      the first header line opens. A repeated header does not close the section. */
  ghost predicate InSection(lines: seq<string>, header: string, s: nat, i: nat)
  {
    && s < i <= |lines|
    && Strip(lines[s]) == header
    && (forall k: nat :: k < s ==> Strip(lines[k]) != header)
    && (forall k: nat :: s < k < i && Strip(lines[k]) != header ==>
          !StartsSection(Strip(lines[k])) && !IsKeyLine(Strip(lines[k])))
  }

  ghost predicate IsNumprocsLine(lines: seq<string>, header: string, i: nat)
  {
    && i < |lines|
    && Strip(lines[i]) != header && !StartsSection(Strip(lines[i])) && IsKeyLine(Strip(lines[i]))
    && exists s: nat :: InSection(lines, header, s, i)
  }

  lemma {:induction false} LocateInside(lines: seq<string>, header: string, s: nat, k: nat)
    requires s < k <= |lines| && InSection(lines, header, s, k)
    ensures Locate(lines, header, k, true).Some?
            ==> IsNumprocsLine(lines, header, Locate(lines, header, k, true).value)
    ensures forall i: nat :: k <= i && IsNumprocsLine(lines, header, i) ==> Locate(lines, header, k, true) == Some(i)
    decreases |lines| - k
  {
    if k < |lines| {
      var stripped := Strip(lines[k]);
      if stripped == header || (!StartsSection(stripped) && !IsKeyLine(stripped)) {
        LocateInside(lines, header, s, k + 1);
      } else {
        forall i: nat | k <= i && IsNumprocsLine(lines, header, i)
          ensures Locate(lines, header, k, true) == Some(i)
        {
          var s' :| InSection(lines, header, s', i);
          assert s' == s;
        }
      }
    }
  }

  lemma {:induction false} LocateOutside(lines: seq<string>, header: string, k: nat)
    requires k <= |lines|
    requires forall j: nat :: j < k ==> Strip(lines[j]) != header
    ensures forall i: nat :: Locate(lines, header, k, false) == Some(i) <==> IsNumprocsLine(lines, header, i)
    decreases |lines| - k
  {
    if k == |lines| {
    } else if Strip(lines[k]) == header {
      assert InSection(lines, header, k, k + 1);
      LocateInside(lines, header, k, k + 1);
      forall i: nat | IsNumprocsLine(lines, header, i)
        ensures k + 1 <= i
      {
        var s :| InSection(lines, header, s, i);
      }
    } else {
      LocateOutside(lines, header, k + 1);
    }
  }

  /** The scan finds a line exactly when the section has one, and finds the first. */
  lemma LocateFindsTheNumprocsLine(lines: seq<string>, header: string, i: nat)
    ensures Locate(lines, header, 0, false) == Some(i) <==> IsNumprocsLine(lines, header, i)
  {
    LocateOutside(lines, header, 0);
  }

  // ----- The rewrite -----

  function Indent(line: string): string
  {
    LStripShortens(line);
    line[..|line| - |LStrip(line)|]
  }

  function EqPart(line: string): string
  {
    if HasPair(line, '=', ' ') then "= "
    else if HasPair(line, ' ', '=') then " = "
    else "="
  }

  function Rewrite(line: string, n: int): string
  {
    Indent(line) + "numprocs" + EqPart(line) + ShowInt(n) + "\n"
  }

  /** A configuration file that cannot be opened for reading is None. */
  type File = Option<seq<string>>

  /** The first file and line the editor would write to. */
  function Find(files: seq<File>, header: string, k: nat): (r: Option<(nat, nat)>)
    requires k <= |files|
    ensures r.Some? ==> k <= r.value.0 < |files| && files[r.value.0].Some? && r.value.1 < |files[r.value.0].value|
    decreases |files| - k
  {
    if k == |files| then None
    else match files[k]
         case None => Find(files, header, k + 1)
         case Some(lines) =>
           match Locate(lines, header, 0, false)
           case None => Find(files, header, k + 1)
           case Some(i) => Some((k, i))
  }

  function Update(files: seq<File>, program: string, n: int): seq<File>
  {
    match Find(files, Header(program), 0)
    case None => files
    case Some((k, i)) =>
      var lines := files[k].value;
      files[k := Some(lines[i := Rewrite(lines[i], n)])]
  }

  /** The process count a reader finds for a program, by the same scan. */
  function Read(files: seq<File>, program: string): Option<int>
  {
    match Find(files, Header(program), 0)
    case None => None
    case Some((k, i)) =>
      var stripped := Strip(files[k].value[i]);
      FindIsKeyLine(files, Header(program), 0);
      ValueOf(stripped)
  }

  lemma {:induction false} LocateIsKeyLine(lines: seq<string>, header: string, i: nat, inSection: bool)
    requires i <= |lines| && Locate(lines, header, i, inSection).Some?
    ensures var j := Locate(lines, header, i, inSection).value;
            Strip(lines[j]) != header && !StartsSection(Strip(lines[j])) && IsKeyLine(Strip(lines[j]))
    decreases |lines| - i
  {
    var stripped := Strip(lines[i]);
    if stripped == header {
      LocateIsKeyLine(lines, header, i + 1, true);
    } else if inSection && (StartsSection(stripped) || IsKeyLine(stripped)) {
    } else {
      LocateIsKeyLine(lines, header, i + 1, inSection);
    }
  }

  lemma {:induction false} FindIsKeyLine(files: seq<File>, header: string, k: nat)
    requires k <= |files|
    ensures Find(files, header, k).Some? ==>
              var (f, i) := Find(files, header, k).value;
              Locate(files[f].value, header, 0, false) == Some(i) && IsKeyLine(Strip(files[f].value[i]))
    decreases |files| - k
  {
    if k < |files| {
      if files[k].Some? && Locate(files[k].value, header, 0, false).Some? {
        LocateIsKeyLine(files[k].value, header, 0, false);
      } else {
        FindIsKeyLine(files, header, k + 1);
      }
    }
  }

  // ----- The loops of the plugin -----

  method EditLines(lines: seq<string>, header: string, n: int) returns (edited: seq<string>, found: bool)
    ensures found <==> exists i: nat :: IsNumprocsLine(lines, header, i)
    ensures found ==> exists i: nat :: IsNumprocsLine(lines, header, i) && edited == lines[i := Rewrite(lines[i], n)]
    ensures !found ==> edited == lines
    ensures match Locate(lines, header, 0, false)
            case None => !found
            case Some(i) => found && edited == lines[i := Rewrite(lines[i], n)]
  {
    LocateOutside(lines, header, 0);
    edited, found := lines, false;
    var inSection := false;
    var i := 0;
    while i < |lines|
      invariant i <= |lines| && edited == lines && !found
      invariant Locate(lines, header, 0, false) == Locate(lines, header, i, inSection)
    {
      var stripped := Strip(lines[i]);
      if stripped == header {
        inSection := true;
        i := i + 1;
        continue;
      }
      if inSection && "[" <= stripped {
        break;
      }
      if inSection && "numprocs" <= stripped {
        var eq := IndexOf(stripped, '=');
        if eq.Some? && Strip(stripped[..eq.value]) == "numprocs" {
          edited := lines[i := Rewrite(lines[i], n)];
          found := true;
          break;
        }
      }
      i := i + 1;
    }
  }

  method UpdateNumprocsInConfig(files: seq<File>, program: string, n: int) returns (written: seq<File>)
    ensures written == Update(files, program, n)
  {
    var header := Header(program);
    var k := 0;
    while k < |files|
      invariant k <= |files|
      invariant Find(files, header, 0) == Find(files, header, k)
    {
      if files[k].Some? {
        var lines, found := EditLines(files[k].value, header, n);
        if found {
          return files[k := Some(lines)];
        }
      }
      k := k + 1;
    }
    return files;
  }

  // ----- What a rewritten line reads as -----

  lemma {:induction false} LStripShortens(s: string)
    ensures |LStrip(s)| <= |s| && s == s[..|s| - |LStrip(s)|] + LStrip(s)
    ensures forall c :: c in s[..|s| - |LStrip(s)|] ==> IsSpace(c)
  {
    if |s| > 0 && IsSpace(s[0]) {
      LStripShortens(s[1..]);
      var m := |s| - |LStrip(s)|;
      assert s[..m] == [s[0]] + s[1..][..m - 1];
    }
  }

  lemma {:induction false} LStripDropsIndent(p: string, x: string)
    requires forall c :: c in p ==> IsSpace(c)
    requires |x| > 0 && !IsSpace(x[0])
    ensures LStrip(p + x) == x
  {
    if |p| == 0 {
      assert p + x == x;
    } else {
      assert (p + x)[1..] == p[1..] + x;
      LStripDropsIndent(p[1..], x);
    }
  }

  /** The body of a rewritten line, without indent and newline. */
  function Body(eq: string, n: int): string { "numprocs" + eq + ShowInt(n) }

  lemma ShowIntEnds(n: int)
    ensures |ShowInt(n)| > 0 && !IsSpace(ShowInt(n)[0]) && !IsSpace(ShowInt(n)[|ShowInt(n)| - 1])
    ensures forall k :: 0 <= k < |ShowInt(n)| ==> ShowInt(n)[k] == '-' || IsDigit(ShowInt(n)[k])
  {
    ShowIsDigits(if n < 0 then -n else n);
  }

  lemma StripRewrite(line: string, n: int)
    ensures Strip(Rewrite(line, n)) == Body(EqPart(line), n)
  {
    LStripShortens(line);
    ShowIntEnds(n);
    var x := Body(EqPart(line), n);
    assert Rewrite(line, n) == Indent(line) + (x + "\n");
    LStripDropsIndent(Indent(line), x + "\n");
    assert (x + "\n")[..|x|] == x;
    assert x[|x| - 1] == ShowInt(n)[|ShowInt(n)| - 1];
    assert RStrip(x) == x;
  }

  lemma {:induction false} NoComment(s: string)
    requires forall k :: 0 <= k < |s| ==> s[k] != ';' && s[k] != '#'
    ensures Uncommented(s) == s
  {
    if |s| > 1 {
      NoComment(s[..|s| - 1]);
    }
  }

  lemma StripValue(pad: string, n: int)
    requires pad == "" || pad == " "
    ensures Strip(Uncommented(pad + ShowInt(n))) == ShowInt(n)
  {
    ShowIntEnds(n);
    NoComment(pad + ShowInt(n));
    LStripDropsIndent(pad, ShowInt(n));
  }

  lemma {:induction false} CommentStays(value: string, mark: string, note: string)
    requires |value| > 0 && |mark| > 0 && Uncommented(value + mark) == value
    ensures Uncommented(value + mark + note) == value
  {
    if |note| == 0 {
      assert value + mark + note == value + mark;
    } else {
      CommentStays(value, mark, note[..|note| - 1]);
      var s := value + mark + note;
      assert s[..|s| - 1] == value + mark + note[..|note| - 1];
    }
  }

  lemma {:induction false} IndexIs(s: string, c: char, i: nat)
    requires i < |s| && s[i] == c && c !in s[..i]
    ensures IndexOf(s, c) == Some(i)
  {
    if i > 0 {
      assert s[..i][0] == s[0];
      assert s[1..][..i - 1] == s[..i][1..];
      IndexIs(s[1..], c, i - 1);
    }
  }

  lemma KeyLineShape(key: string, rest: string, n: int)
    requires "numprocs" <= key && '=' !in key && Strip(key) == "numprocs" && Strip(Uncommented(rest)) == ShowInt(n)
    ensures var x := key + "=" + rest; IsKeyLine(x) && ValueOf(x) == Some(n)
  {
    var x := key + "=" + rest;
    assert x[..|key|] == key && x[|key| + 1..] == rest;
    IndexIs(x, '=', |key|);
    ParseIntShowInt(n);
  }

  /** A numprocs line is one whose key, up to the first sign, is numprocs and nothing else. */
  lemma KeyLineExactly(key: string, value: string)
    requires '=' !in key
    ensures IsKeyLine(key + "=" + value) <==> "numprocs" <= key && Strip(key) == "numprocs"
    ensures !IsKeyLine(key)
  {
    var x := key + "=" + value;
    assert x[..|key|] == key && x[|key|] == '=';
    IndexIs(x, '=', |key|);
    if "numprocs" <= x {
      assert forall k :: 0 <= k < 8 ==> x[k] == "numprocs"[k] && "numprocs"[k] != '=';
      assert |key| >= 8 && key[..8] == x[..8];
    }
  }

  /** So numprocs_start is none. */
  lemma OtherKeyIsNone(value: string)
    ensures !IsKeyLine("numprocs_start" + "=" + value)
  {
    var key := "numprocs_start";
    assert !IsSpace('n') && !IsSpace('t') && key[0] == 'n' && key[|key| - 1] == 't';
    assert LStrip(key) == key && RStrip(key) == key;
    assert |key| != |"numprocs"|;
    KeyLineExactly(key, value);
  }

  lemma StripKey()
    ensures Strip("numprocs") == "numprocs" && Strip("numprocs ") == "numprocs"
  {
    var s := "numprocs ";
    assert s[..|s| - 1] == "numprocs";
    assert RStrip(s) == RStrip("numprocs");
  }

  lemma SpacedIsKeyLine(gap: string, pad: string, n: int)
    requires (gap == "" || gap == " ") && (pad == "" || pad == " ")
    ensures var x := "numprocs" + gap + "=" + (pad + ShowInt(n)); IsKeyLine(x) && ValueOf(x) == Some(n)
  {
    StripKey();
    StripValue(pad, n);
    assert "numprocs" + "" == "numprocs" && "numprocs" + " " == "numprocs ";
    KeyLineShape("numprocs" + gap, pad + ShowInt(n), n);
  }

  lemma BodyIsKeyLine(eq: string, n: int)
    requires eq in {"=", "= ", " = "}
    ensures IsKeyLine(Body(eq, n)) && ValueOf(Body(eq, n)) == Some(n)
    ensures !StartsSection(Body(eq, n))
  {
    var gap := if eq == " = " then " " else "";
    var pad := if eq == "=" then "" else " ";
    assert eq == gap + "=" + pad;
    assert Body(eq, n) == "numprocs" + gap + "=" + (pad + ShowInt(n));
    SpacedIsKeyLine(gap, pad, n);
    assert Body(eq, n)[0] == 'n';
  }

  predicate Blank(s: string) { forall c :: c in s ==> IsSpace(c) }

  lemma {:induction false} RStripDropsTail(x: string, tail: string)
    requires |x| > 0 && !IsSpace(x[|x| - 1]) && Blank(tail)
    ensures RStrip(x + tail) == x
  {
    if |tail| == 0 {
      assert x + tail == x;
    } else {
      assert (x + tail)[..|x + tail| - 1] == x + tail[..|tail| - 1];
      RStripDropsTail(x, tail[..|tail| - 1]);
    }
  }

  lemma StripPadded(head: string, x: string, tail: string)
    requires Blank(head) && Blank(tail) && |x| > 0 && !IsSpace(x[0]) && !IsSpace(x[|x| - 1])
    ensures Strip(head + x + tail) == x
  {
    assert head + x + tail == head + (x + tail);
    LStripDropsIndent(head, x + tail);
    RStripDropsTail(x, tail);
  }

  lemma CommentedValue(pad: string, n: int, gap: string, mark: char, note: string)
    requires Blank(pad) && Blank(gap) && |gap| > 0 && (mark == ';' || mark == '#')
    ensures Strip(Uncommented(pad + ShowInt(n) + gap + [mark] + note)) == ShowInt(n)
  {
    var value := pad + ShowInt(n) + gap;
    ShowIntEnds(n);
    forall k | 0 <= k < |value|
      ensures value[k] != ';' && value[k] != '#'
    {
      var c := value[k];
      assert c in pad || c in ShowInt(n) || c in gap;
    }
    NoComment(value);
    assert (value + [mark])[..|value|] == value && value[|value| - 1] == gap[|gap| - 1];
    CommentStays(value, [mark], note);
    StripPadded(pad, ShowInt(n), gap);
  }

  /** An inline comment does not hide the number of a line, however the line is spaced. */
  lemma CommentedLineReads(before: string, pad: string, n: int, gap: string, mark: char, note: string)
    requires Blank(before) && Blank(pad) && Blank(gap) && |gap| > 0 && (mark == ';' || mark == '#')
    ensures var x := "numprocs" + before + "=" + (pad + ShowInt(n) + gap + [mark] + note);
            IsKeyLine(x) && ValueOf(x) == Some(n)
  {
    var key := "numprocs" + before;
    assert "" + "numprocs" + before == key;
    StripPadded("", "numprocs", before);
    assert !IsSpace('=') && '=' !in "numprocs";
    CommentedValue(pad, n, gap, mark, note);
    KeyLineShape(key, pad + ShowInt(n) + gap + [mark] + note, n);
  }

  /** The text of a line with one sign decides which of the two pairs it has. */
  lemma PairAtSign(p: string, q: string)
    requires '=' !in p && '=' !in q
    ensures HasPair(p + "=" + q, '=', ' ') <==> q != "" && q[0] == ' '
    ensures HasPair(p + "=" + q, ' ', '=') <==> p != "" && p[|p| - 1] == ' '
  {
    var x := p + "=" + q;
    assert x[|p|] == '=' && (q != "" ==> x[|p| + 1] == q[0]) && (p != "" ==> x[|p| - 1] == p[|p| - 1]);
    forall k | 0 <= k < |x| && k != |p|
      ensures x[k] != '='
    {
      assert x[k] == if k < |p| then p[k] else q[k - |p| - 1];
    }
  }

  /** What becomes of a line: the indent stays; a space after the sign stays and then one before it goes; a
      space before it only comes to be on both sides; everything else goes. */
  lemma RewrittenText(indent: string, gap: string, pad: string, value: string, n: int)
    requires Blank(indent) && Blank(gap) && Blank(pad) && '=' !in value && (value == "" || !IsSpace(value[0]))
    ensures Rewrite(indent + "numprocs" + gap + "=" + pad + value + "\n", n) ==
            indent + "numprocs"
            + (if pad != "" && pad[0] == ' ' then "= "
               else if gap != "" && gap[|gap| - 1] == ' ' then " = " else "=")
            + ShowInt(n) + "\n"
  {
    var p, q := indent + "numprocs" + gap, pad + value + "\n";
    var line := indent + "numprocs" + gap + "=" + pad + value + "\n";
    assert line == p + "=" + q;
    assert !IsSpace('=') && '=' !in "numprocs" && '=' !in p && '=' !in q;
    PairAtSign(p, q);
    assert q[0] == (if pad != "" then pad[0] else if value != "" then value[0] else '\n');
    assert gap != "" ==> p[|p| - 1] == gap[|gap| - 1];
    assert gap == "" ==> p[|p| - 1] == "numprocs"[7];
    var rest := "numprocs" + gap + "=" + q;
    assert line == indent + rest && rest[0] == 'n';
    LStripDropsIndent(indent, rest);
    assert Indent(line) == indent;
  }

  lemma RewriteIsKeyLine(line: string, n: int)
    ensures IsKeyLine(Strip(Rewrite(line, n))) && ValueOf(Strip(Rewrite(line, n))) == Some(n)
    ensures !StartsSection(Strip(Rewrite(line, n)))
  {
    StripRewrite(line, n);
    BodyIsKeyLine(EqPart(line), n);
  }

  // ----- Reading back, and what else a scan sees -----

  lemma HeaderStartsSection(program: string)
    ensures StartsSection(Header(program))
  {
    assert Header(program)[0] == '[';
  }

  lemma HeaderInjective(p: string, q: string)
    requires p != q
    ensures Header(p) != Header(q)
  {
    assert |Header(p)| == |p| + 10 && |Header(q)| == |q| + 10;
    assert Header(p)[9..|p| + 9] == p && Header(q)[9..|q| + 9] == q;
  }

  lemma {:induction false} LocateAgain(lines: seq<string>, header: string, k: nat, inSection: bool, i: nat,
                                       new_: string)
    requires k <= |lines| && Locate(lines, header, k, inSection) == Some(i)
    requires Strip(new_) != header && !StartsSection(Strip(new_)) && IsKeyLine(Strip(new_))
    ensures Locate(lines[i := new_], header, k, inSection) == Some(i)
    decreases |lines| - k
  {
    var stripped := Strip(lines[k]);
    if stripped == header {
      LocateAgain(lines, header, k + 1, true, i, new_);
    } else if inSection && IsKeyLine(stripped) && !StartsSection(stripped) {
    } else {
      LocateAgain(lines, header, k + 1, inSection, i, new_);
    }
  }

  lemma {:induction false} LocateSuffix(lines: seq<string>, lines': seq<string>, header: string, k: nat,
                                        inSection: bool)
    requires |lines| == |lines'| && k <= |lines|
    requires forall j :: k <= j < |lines| ==> lines[j] == lines'[j]
    ensures Locate(lines, header, k, inSection) == Locate(lines', header, k, inSection)
    decreases |lines| - k
  {
    if k < |lines| {
      LocateSuffix(lines, lines', header, k + 1, true);
      LocateSuffix(lines, lines', header, k + 1, inSection);
    }
  }

  /** Two scans side by side: section ranges are disjoint, so the line found for `header` is never
      inside the section of `other`. */
  lemma {:induction false} LocateOther(lines: seq<string>, header: string, other: string, k: nat,
                                       inHeader: bool, inOther: bool, i: nat, new_: string)
    requires k <= |lines| && Locate(lines, header, k, inHeader) == Some(i)
    requires header != other && StartsSection(header) && StartsSection(other)
    requires !StartsSection(Strip(new_))
    requires !(inHeader && inOther)
    ensures Locate(lines[i := new_], other, k, inOther) == Locate(lines, other, k, inOther)
    decreases |lines| - k
  {
    var stripped := Strip(lines[k]);
    if k == i {
      LocateIsKeyLine(lines, header, k, inHeader);
      LocateSuffix(lines, lines[i := new_], other, k + 1, inOther);
    } else if stripped == header {
      if !inOther {
        LocateOther(lines, header, other, k + 1, true, false, i, new_);
      }
    } else if stripped == other {
      LocateOther(lines, header, other, k + 1, inHeader, true, i, new_);
    } else if inOther && (StartsSection(stripped) || IsKeyLine(stripped)) {
    } else {
      LocateOther(lines, header, other, k + 1, inHeader, inOther, i, new_);
    }
  }

  lemma {:induction false} FindAfterUpdate(files: seq<File>, header: string, k: nat, n: int)
    requires k <= |files| && Find(files, header, k).Some? && StartsSection(header)
    ensures var (f, i) := Find(files, header, k).value;
            var lines := files[f].value;
            Find(files[f := Some(lines[i := Rewrite(lines[i], n)])], header, k) == Some((f, i))
    decreases |files| - k
  {
    var (f, i) := Find(files, header, k).value;
    var lines := files[f].value;
    if f == k {
      RewriteIsKeyLine(lines[i], n);
      LocateAgain(lines, header, 0, false, i, Rewrite(lines[i], n));
    } else {
      FindAfterUpdate(files, header, k + 1, n);
    }
  }

  lemma {:induction false} FindOther(files: seq<File>, header: string, other: string, k: nat, f: nat, i: nat, n: int)
    requires k <= |files| && f < |files| && files[f].Some?
    requires Locate(files[f].value, header, 0, false) == Some(i)
    requires header != other && StartsSection(header) && StartsSection(other)
    ensures var lines := files[f].value;
            Find(files[f := Some(lines[i := Rewrite(lines[i], n)])], other, k) == Find(files, other, k)
    decreases |files| - k
  {
    var lines := files[f].value;
    if k < |files| {
      RewriteIsKeyLine(lines[i], n);
      LocateOther(lines, header, other, 0, false, false, i, Rewrite(lines[i], n));
      FindOther(files, header, other, k + 1, f, i, n);
    }
  }

  /** Reading the program just written gives the new count; with no line to write, nothing changes. */
  lemma ReadAfterUpdate(files: seq<File>, program: string, n: int)
    ensures Find(files, Header(program), 0).Some? ==> Read(Update(files, program, n), program) == Some(n)
    ensures Find(files, Header(program), 0).None? ==> Update(files, program, n) == files
    ensures Find(Update(files, program, n), Header(program), 0) == Find(files, Header(program), 0)
  {
    if Find(files, Header(program), 0).Some? {
      var (f, i) := Find(files, Header(program), 0).value;
      HeaderStartsSection(program);
      FindAfterUpdate(files, Header(program), 0, n);
      RewriteIsKeyLine(files[f].value[i], n);
    }
  }

  lemma LocateSecond(lines: seq<string>, header: string)
    requires |lines| == 2 && Strip(lines[0]) == header && Strip(lines[1]) != header
    requires !StartsSection(Strip(lines[1])) && IsKeyLine(Strip(lines[1]))
    ensures Locate(lines, header, 0, false) == Some(1)
  {
    assert Locate(lines, header, 1, true) == Some(1);
  }

  lemma StripNewline(x: string)
    requires |x| > 0 && !IsSpace(x[0]) && !IsSpace(x[|x| - 1])
    ensures Strip(x + "\n") == x
  {
    assert "" + x + "\n" == x + "\n";
    StripPadded("", x, "\n");
  }

  /** A file with a program section and its count reads as that count. */
  lemma SectionReads(program: string, n: int)
    ensures Read([Some(["[program:" + program + "]" + "\n", "numprocs=" + ShowInt(n) + "\n"])], program) == Some(n)
  {
    var header, body := "[program:" + program + "]", "numprocs=" + ShowInt(n);
    var lines := [header + "\n", body + "\n"];
    assert body == Body("=", n);
    StripNewline(header);
    ShowIntEnds(n);
    assert body[|body| - 1] == ShowInt(n)[|ShowInt(n)| - 1];
    StripNewline(body);
    BodyIsKeyLine("=", n);
    LocateSecond(lines, header);
    var files: seq<File> := [Some(lines)];
    assert Find(files, Header(program), 0) == Some((0, 1));
  }

  lemma SectionsDisjoint(lines: seq<string>, header: string, other: string, i: nat)
    requires header != other && StartsSection(header) && StartsSection(other)
    ensures !(IsNumprocsLine(lines, header, i) && IsNumprocsLine(lines, other, i))
  {
  }

  /** Every other program reads as before. */
  lemma UpdateKeepsOtherPrograms(files: seq<File>, program: string, other: string, n: int)
    requires program != other
    ensures Read(Update(files, program, n), other) == Read(files, other)
    ensures Find(Update(files, program, n), Header(other), 0) == Find(files, Header(other), 0)
  {
    var h, g := Header(program), Header(other);
    if Find(files, h, 0).Some? {
      var (f, i) := Find(files, h, 0).value;
      var lines := files[f].value;
      HeaderStartsSection(program);
      HeaderStartsSection(other);
      HeaderInjective(program, other);
      FindIsKeyLine(files, h, 0);
      FindOther(files, h, g, 0, f, i, n);
      FindIsKeyLine(files, g, 0);
      LocateFindsTheNumprocsLine(lines, h, i);
      LocateFindsTheNumprocsLine(lines, g, i);
      SectionsDisjoint(lines, h, g, i);
    }
  }

  /** One line of one file changes, and it is a line whose key is exactly `numprocs`: file count, line
      counts and all other lines (comments, `numprocs_start`, other sections) are untouched. */
  lemma UpdateTouchesOneLine(files: seq<File>, program: string, n: int)
    ensures |Update(files, program, n)| == |files|
    ensures forall f :: 0 <= f < |files| ==> Update(files, program, n)[f].Some? == files[f].Some?
    ensures forall f :: 0 <= f < |files| && files[f].Some? ==>
              |Update(files, program, n)[f].value| == |files[f].value|
    ensures forall f, i, g, j :: Changed(files, program, n, f, i) && Changed(files, program, n, g, j) ==>
              f == g && i == j
    ensures forall f, i :: Changed(files, program, n, f, i) ==>
              && IsKeyLine(Strip(files[f].value[i]))
              && IsNumprocsLine(files[f].value, Header(program), i)
              && forall g :: 0 <= g < f && files[g].Some? ==>
                   forall j: nat :: !IsNumprocsLine(files[g].value, Header(program), j)
  {
    FindIsKeyLine(files, Header(program), 0);
    if Find(files, Header(program), 0).Some? {
      var (f, i) := Find(files, Header(program), 0).value;
      LocateFindsTheNumprocsLine(files[f].value, Header(program), i);
      FindIsFirst(files, Header(program), 0);
    }
  }

  ghost predicate Changed(files: seq<File>, program: string, n: int, f: int, i: int)
  {
    && 0 <= f < |files| && files[f].Some? && 0 <= i < |files[f].value|
    && var after := Update(files, program, n);
       f < |after| && after[f].Some? && i < |after[f].value| && after[f].value[i] != files[f].value[i]
  }

  lemma {:induction false} FindIsFirst(files: seq<File>, header: string, k: nat)
    requires k <= |files|
    ensures var stop := if Find(files, header, k).Some? then Find(files, header, k).value.0 else |files|;
            forall g, j: nat :: k <= g < stop && files[g].Some? ==> !IsNumprocsLine(files[g].value, header, j)
    decreases |files| - k
  {
    if k < |files| {
      if files[k].Some? {
        LocateOutside(files[k].value, header, 0);
      }
      FindIsFirst(files, header, k + 1);
    }
  }

  // ----- Spacing is not preserved -----

  lemma PairInRewrite(line: string, n: int)
    ensures HasPair(Rewrite(line, n), '=', ' ') <==> EqPart(line) != "="
    ensures HasPair(Rewrite(line, n), ' ', '=') <==> EqPart(line) == " = "
  {
    LStripShortens(line);
    ShowIntEnds(n);
    var p, eq, r := Indent(line), EqPart(line), Rewrite(line, n);
    assert !IsSpace('=') && '=' !in p;
    assert r == p + "numprocs" + eq + (ShowInt(n) + "\n");
    var at := |p| + 8;
    assert eq == "=" ==> r[at] == '=' && r[at + 1] == ShowInt(n)[0];
    assert eq == "= " ==> r[at] == '=' && r[at + 1] == ' ';
    assert eq == " = " ==> r[at] == ' ' && r[at + 1] == '=' && r[at + 2] == ' ';
    assert r[at - 1] == 's';
    var sign := if eq == " = " then at + 1 else at;
    forall k | 0 <= k < |r| && k != sign
      ensures r[k] != '='
    {
      assert k < |p| ==> r[k] == p[k];
      assert |p| <= k < at ==> r[k] == "numprocs"[k - |p|];
      assert at + |eq| <= k ==> r[k] == (ShowInt(n) + "\n")[k - at - |eq|];
    }
  }

  lemma {:induction false} IndentOfRewrite(line: string, n: int)
    ensures Indent(Rewrite(line, n)) == Indent(line)
  {
    LStripShortens(line);
    var x := Body(EqPart(line), n) + "\n";
    assert Rewrite(line, n) == Indent(line) + x;
    LStripDropsIndent(Indent(line), x);
  }

  lemma SecondRewriteWins(line: string, n: int, m: int)
    ensures Rewrite(Rewrite(line, n), m) == Rewrite(line, m) <==> EqPart(line) != " = "
  {
    PairInRewrite(line, n);
    IndentOfRewrite(line, n);
    if EqPart(line) == " = " {
      var p := Indent(line);
      assert Rewrite(line, m)[|p| + 8] == ' ';
      assert Rewrite(Rewrite(line, n), m)[|p| + 8] == '=';
    }
  }

  /** The program has a line, and it has a space before the sign and none after it. */
  predicate SpacedBeforeOnly(files: seq<File>, program: string)
  {
    var at := Find(files, Header(program), 0);
    at.Some? && EqPart(files[at.value.0].value[at.value.1]) == " = "
  }

  /** A second update wins byte for byte, over all files, exactly when the program's line, if any,
      was not of the `numprocs =4` style: there the first update puts a space after the sign and the second one
      takes the space before it away again. Reading is unaffected (ReadAfterUpdate). */
  lemma SecondUpdateWins(files: seq<File>, program: string, n: int, m: int)
    ensures Update(Update(files, program, n), program, m) == Update(files, program, m) <==>
            !SpacedBeforeOnly(files, program)
  {
    if Find(files, Header(program), 0).Some? {
      var (f, i) := Find(files, Header(program), 0).value;
      HeaderStartsSection(program);
      FindAfterUpdate(files, Header(program), 0, n);
      SecondRewriteWins(files[f].value[i], n, m);
      UpdatedLines(files, program, n, m, f, i);
    }
  }

  lemma UpdatedLines(files: seq<File>, program: string, n: int, m: int, f: nat, i: nat)
    requires Find(files, Header(program), 0) == Some((f, i))
    requires Find(Update(files, program, n), Header(program), 0) == Some((f, i))
    ensures Update(Update(files, program, n), program, m) == Update(files, program, m) <==>
            Rewrite(Rewrite(files[f].value[i], n), m) == Rewrite(files[f].value[i], m)
  {
    var lines := files[f].value;
    var once, twice := Rewrite(lines[i], m), Rewrite(Rewrite(lines[i], n), m);
    assert lines[i := Rewrite(lines[i], n)][i := twice] == lines[i := twice];
    assert Update(files, program, m) == files[f := Some(lines[i := once])];
    assert Update(Update(files, program, n), program, m) == files[f := Some(lines[i := twice])];
    assert lines[i := once][i] == once && lines[i := twice][i] == twice;
    assert files[f := Some(lines[i := once])][f] == Some(lines[i := once]);
    assert files[f := Some(lines[i := twice])][f] == Some(lines[i := twice]);
  }

  /** A line where it does not. */
  lemma SpaceBeforeSignOnly(n: int, m: int)
    ensures Rewrite(Rewrite("numprocs =4", n), m) != Rewrite("numprocs =4", m)
  {
    var line := "numprocs =4";
    assert line[8] == ' ' && line[9] == '=' && line[10] == '4';
    SecondRewriteWins(line, n, m);
  }

  // ----- The file as text -----

  function Join(lines: seq<string>): string
  {
    if |lines| == 0 then "" else lines[0] + Join(lines[1..])
  }

  /** `readlines`: every line keeps its newline; only the last may lack one. */
  function SplitLines(text: string): seq<string>
    decreases |text|
  {
    match IndexOf(text, '\n')
    case None => if text == "" then [] else [text]
    case Some(i) => [text[..i + 1]] + SplitLines(text[i + 1..])
  }

  ghost predicate AreLines(lines: seq<string>)
  {
    forall k :: 0 <= k < |lines| ==>
      && |lines[k]| > 0 && '\n' !in lines[k][..|lines[k]| - 1]
      && (k < |lines| - 1 ==> lines[k][|lines[k]| - 1] == '\n')
  }

  lemma {:induction false} SplitJoin(lines: seq<string>)
    requires AreLines(lines)
    ensures SplitLines(Join(lines)) == lines
  {
    if |lines| > 0 {
      SplitJoin(lines[1..]);
      var first, text := lines[0], Join(lines);
      var last := |first| - 1;
      assert text == first + Join(lines[1..]);
      if first[last] == '\n' {
        assert text[..last] == first[..last];
        IndexIs(text, '\n', last);
        assert text[..last + 1] == first && text[last + 1..] == Join(lines[1..]);
      } else {
        assert |lines| == 1 && text == first;
        assert first == first[..last] + [first[last]];
      }
    }
  }

  lemma JoinedWithout(a: string, b: string, c: char)
    requires c !in a && c !in b
    ensures c !in a + b
  {
  }

  lemma IndentIsBefore(line: string, c: char)
    requires |line| > 0 && c !in line[..|line| - 1] && LStrip(line) != ""
    ensures c !in Indent(line)
  {
    LStripShortens(line);
    var p := Indent(line);
    assert forall k :: 0 <= k < |p| ==> p[k] == line[..|line| - 1][k];
  }

  lemma RewriteIsLine(line: string, n: int)
    requires |line| > 0 && '\n' !in line[..|line| - 1] && LStrip(line) != ""
    ensures var new_ := Rewrite(line, n);
            |new_| > 0 && new_[|new_| - 1] == '\n' && '\n' !in new_[..|new_| - 1]
  {
    ShowIntEnds(n);
    IndentIsBefore(line, '\n');
    var p, eq := Indent(line), EqPart(line);
    assert '\n' !in "numprocs" && '\n' !in eq && '\n' !in ShowInt(n);
    JoinedWithout(p, "numprocs", '\n');
    JoinedWithout(p + "numprocs", eq, '\n');
    JoinedWithout(p + "numprocs" + eq, ShowInt(n), '\n');
    var new_ := Rewrite(line, n);
    assert new_[..|new_| - 1] == p + "numprocs" + eq + ShowInt(n);
  }

  /** Writing the edited lines and reading the file again gives those lines, so what holds of the line
      buffer (ReadAfterUpdate, UpdateTouchesOneLine) holds of the file. */
  lemma EditedFileReadsBack(lines: seq<string>, header: string, n: int)
    requires AreLines(lines) && Locate(lines, header, 0, false).Some?
    ensures var i := Locate(lines, header, 0, false).value;
            SplitLines(Join(lines[i := Rewrite(lines[i], n)])) == lines[i := Rewrite(lines[i], n)]
  {
    var i := Locate(lines, header, 0, false).value;
    var line, new_ := lines[i], Rewrite(lines[i], n);
    LocateIsKeyLine(lines, header, 0, false);
    assert LStrip(line) == "" ==> Strip(line) == "";
    RewriteIsLine(line, n);
    SplitJoin(lines[i := new_]);
  }
}

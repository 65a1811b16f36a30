/** The string operations the skill and rate code leans on: trimming, folding case, collapsing space. */
module Text {
  /** White space for both `\s` and `trim`. */
  predicate IsSpace(ch: char) {
    var n := ch as int;
    9 <= n <= 13 || n == 0x20 || n == 0xa0 || n == 0x1680 || 0x2000 <= n <= 0x200a
    || n == 0x2028 || n == 0x2029 || n == 0x202f || n == 0x205f || n == 0x3000 || n == 0xfeff
  }

  predicate AllSpace(s: string) {
    forall i :: 0 <= i < |s| ==> IsSpace(s[i])
  }

  predicate NoSpace(s: string) {
    forall i :: 0 <= i < |s| ==> !IsSpace(s[i])
  }

  function TrimLeft(s: string): string {
    if s != "" && IsSpace(s[0]) then TrimLeft(s[1..]) else s
  }

  function TrimRight(s: string): string {
    if s != "" && IsSpace(s[|s| - 1]) then TrimRight(s[..|s| - 1]) else s
  }

  function Trim(s: string): string {
    TrimRight(TrimLeft(s))
  }

  /** No white space at either end. */
  predicate Trimmed(s: string) {
    s != "" ==> !IsSpace(s[0]) && !IsSpace(s[|s| - 1])
  }

  /** `replace(/\s+/g, ' ')`: every run of white space becomes one blank. */
  function Collapse(s: string): string {
    if s == "" then ""
    else if !IsSpace(s[0]) then [s[0]] + Collapse(s[1..])
    else if |s| > 1 && IsSpace(s[1]) then Collapse(s[1..])
    else " " + Collapse(s[1..])
  }

  function LowerChar(ch: char): char {
    if 'A' <= ch <= 'Z' then (ch as int + 32) as char else ch
  }

  function Lower(s: string): (r: string)
    ensures |r| == |s|
    ensures forall i :: 0 <= i < |s| ==> r[i] == LowerChar(s[i])
  {
    seq(|s|, i requires 0 <= i < |s| => LowerChar(s[i]))
  }

  // ---- Trimming ----

  lemma {:induction false} TrimLeftShape(s: string) returns (front: string)
    ensures s == front + TrimLeft(s) && AllSpace(front)
    ensures TrimLeft(s) == "" || !IsSpace(TrimLeft(s)[0])
  {
    if s != "" && IsSpace(s[0]) {
      front := TrimLeftShape(s[1..]);
      assert s == [s[0]] + s[1..];
      front := [s[0]] + front;
    } else {
      front := "";
    }
  }

  lemma {:induction false} TrimRightShape(s: string) returns (back: string)
    ensures s == TrimRight(s) + back && AllSpace(back)
    ensures TrimRight(s) == "" || !IsSpace(TrimRight(s)[|TrimRight(s)| - 1])
  {
    if s != "" && IsSpace(s[|s| - 1]) {
      back := TrimRightShape(s[..|s| - 1]);
      assert s == s[..|s| - 1] + [s[|s| - 1]];
      back := back + [s[|s| - 1]];
    } else {
      back := "";
    }
  }

  /** A string is its trimmed core with white space around it. */
  lemma TrimShape(s: string) returns (front: string, back: string)
    ensures s == front + Trim(s) + back && AllSpace(front) && AllSpace(back) && Trimmed(Trim(s))
  {
    hide TrimLeft, TrimRight, IsSpace;
    var core := TrimLeft(s);
    front := TrimLeftShape(s);
    back := TrimRightShape(core);
    assert front + (Trim(s) + back) == front + Trim(s) + back;
    if Trim(s) != "" {
      assert core[0] == (Trim(s) + back)[0] == Trim(s)[0];
    }
  }

  lemma {:induction false} TrimLeftOfPadded(front: string, s: string)
    requires AllSpace(front)
    ensures TrimLeft(front + s) == TrimLeft(s)
  {
    if front == "" {
      assert front + s == s;
    } else {
      assert (front + s)[1..] == front[1..] + s;
      TrimLeftOfPadded(front[1..], s);
    }
  }

  lemma {:induction false} TrimRightOfPadded(s: string, back: string)
    requires AllSpace(back)
    ensures TrimRight(s + back) == TrimRight(s)
  {
    if back == "" {
      assert s + back == s;
    } else {
      assert (s + back)[..|s + back| - 1] == s + back[..|back| - 1];
      TrimRightOfPadded(s, back[..|back| - 1]);
    }
  }

  lemma TrimOfTrimmed(s: string)
    requires Trimmed(s)
    ensures Trim(s) == s
  {
  }

  lemma {:induction false} TrimLeftPadRight(s: string, back: string)
    requires AllSpace(back)
    ensures TrimLeft(s + back) == TrimLeft(s) + back || (TrimLeft(s) == "" && TrimLeft(s + back) == "")
    ensures TrimLeft(s) != "" ==> TrimLeft(s + back) == TrimLeft(s) + back
  {
    if s == "" {
      assert s + back == back;
      assert back + "" == back;
      TrimLeftOfPadded(back, "");
    } else if IsSpace(s[0]) {
      assert (s + back)[1..] == s[1..] + back;
      TrimLeftPadRight(s[1..], back);
    }
  }

  /** White space around a string does not show after trimming. */
  lemma TrimOfPadded(front: string, s: string, back: string)
    requires AllSpace(front) && AllSpace(back)
    ensures Trim(front + s + back) == Trim(s)
  {
    assert front + s + back == front + (s + back);
    TrimLeftOfPadded(front, s + back);
    TrimLeftPadRight(s, back);
    if TrimLeft(s) != "" {
      TrimRightOfPadded(TrimLeft(s), back);
    } else if TrimLeft(s + back) == back {
      assert "" + back == back;
      TrimRightOfPadded("", back);
    }
  }

  // ---- Collapsing ----

  lemma {:induction false} CollapseFront(ch: char, s: string)
    requires IsSpace(ch)
    ensures TrimLeft(Collapse([ch] + s)) == TrimLeft(Collapse(s))
  {
    assert ([ch] + s)[1..] == s;
    if s == "" || !IsSpace(s[0]) {
      assert Collapse([ch] + s) == " " + Collapse(s);
      assert (" " + Collapse(s))[1..] == Collapse(s);
    } else {
      assert ([ch] + s)[1] == s[0];
    }
  }

  lemma {:induction false} CollapseBack(s: string, ch: char)
    requires IsSpace(ch)
    ensures Collapse(s + [ch]) == Collapse(s) || Collapse(s + [ch]) == Collapse(s) + " "
  {
    if s == "" {
      assert s + [ch] == [ch];
      assert [ch][1..] == "";
      assert Collapse([ch]) == " " + "";
    } else {
      assert (s + [ch])[1..] == s[1..] + [ch];
      CollapseBack(s[1..], ch);
      if IsSpace(s[0]) && |s| == 1 {
        assert s[1..] + [ch] == [ch];
        assert [ch][1..] == "";
        assert (s + [ch])[1] == ch;
        assert Collapse([ch]) == " " + "";
        assert Collapse(s) == " " + "";
      } else if IsSpace(s[0]) && !IsSpace(s[1]) {
        assert " " + (Collapse(s[1..]) + " ") == (" " + Collapse(s[1..])) + " ";
      } else if !IsSpace(s[0]) {
        assert [s[0]] + (Collapse(s[1..]) + " ") == ([s[0]] + Collapse(s[1..])) + " ";
      }
    }
  }

  lemma {:induction false} CollapseOfPadded(front: string, s: string, back: string)
    requires AllSpace(front) && AllSpace(back)
    ensures Trim(Collapse(front + s + back)) == Trim(Collapse(s))
    decreases |front| + |back|
  {
    if front != "" {
      assert front + s + back == [front[0]] + (front[1..] + s + back);
      CollapseFront(front[0], front[1..] + s + back);
      CollapseOfPadded(front[1..], s, back);
    } else if back != "" {
      var init, last := back[..|back| - 1], back[|back| - 1];
      assert front + s + back == (front + s + init) + [last];
      CollapseBack(front + s + init, last);
      CollapseOfPadded(front, s, init);
      var c := Collapse(front + s + init);
      assert "" + c + " " == c + " ";
      TrimOfPadded("", c, " ");
    } else {
      assert front + s + back == s;
    }
  }

  // ---- What collapsing and folding case make of a text ----

  /** A run of white space becomes one blank. */
  lemma {:induction false} CollapseOfRun(run: string, rest: string)
    requires run != "" && AllSpace(run) && (rest == "" || !IsSpace(rest[0]))
    ensures Collapse(run + rest) == " " + Collapse(rest)
  {
    var s := run + rest;
    if |run| == 1 {
      assert s[1..] == rest;
    } else {
      assert s[1..] == run[1..] + rest;
      CollapseOfRun(run[1..], rest);
    }
  }

  /** Text on both sides of a run is collapsed on its own. */
  lemma {:induction false} CollapseAtRun(front: string, run: string, rest: string)
    requires front == "" || !IsSpace(front[|front| - 1])
    requires run != "" && AllSpace(run) && (rest == "" || !IsSpace(rest[0]))
    ensures Collapse(front + (run + rest)) == Collapse(front) + (" " + Collapse(rest))
  {
    if front == "" {
      CollapseOfRun(run, rest);
      assert front + (run + rest) == run + rest;
    } else {
      assert (front + (run + rest))[1..] == front[1..] + (run + rest);
      CollapseAtRun(front[1..], run, rest);
    }
  }

  /** Text without white space stays. */
  lemma {:induction false} CollapseKeepsDark(s: string)
    requires NoSpace(s)
    ensures Collapse(s) == s
  {
    if s != "" {
      CollapseKeepsDark(s[1..]);
    }
  }

  /** The capital letters become small, and nothing else changes. */
  lemma LowerLetters(ch: char)
    ensures LowerChar(ch) ==
      if ch in "ABCDEFGHIJKLM" || ch in "NOPQRSTUVWXYZ" then (ch as int + 32) as char else ch
  {
    assert ch in "ABCDEFGHIJKLM" <==> 'A' <= ch <= 'M';
    assert ch in "NOPQRSTUVWXYZ" <==> 'N' <= ch <= 'Z';
  }
}

/** The canonical form of MAC addresses (myLibraries/Validator.cpp), the form in which getMAC prints
    them (myLibraries/Socket.cpp), and the folder of a user on a machine (server/ProtocolManager.cpp). */
module Mac {
  import opened Base
  import opened Validator

  // ------------------------------------------------------------ hexadecimal

  predicate IsHex(c: char) { '0' <= c <= '9' || 'a' <= c <= 'f' }

  function ToLower(c: char): char {
    if 'A' <= c <= 'Z' then (c as int - 'A' as int + 'a' as int) as char else c
  }

  function Lower(s: string): (r: string)
    ensures |r| == |s| && forall i :: 0 <= i < |s| ==> r[i] == ToLower(s[i])
  {
    seq(|s|, i requires 0 <= i < |s| => ToLower(s[i]))
  }

  function DigitOf(c: char): nat
    requires IsHex(c)
  {
    if c <= '9' then c as int - '0' as int else c as int - 'a' as int + 10
  }

  function CharOf(d: nat): char
    requires d < 16
  {
    if d < 10 then (d + '0' as int) as char else (d - 10 + 'a' as int) as char
  }

  // ------------------------------------------------------------------ groups

  /** Text between colons. */
  function Split(s: string): (gs: seq<string>)
    ensures gs != []
  {
    if s == "" then [""]
    else
      var rest := Split(s[1..]);
      if s[0] == ':' then [""] + rest else [[s[0]] + rest[0]] + rest[1..]
  }

  /** Groups after the first, each behind a colon. */
  function Tail(gs: seq<string>): string {
    if gs == [] then "" else ":" + (gs[0] + Tail(gs[1..]))
  }

  function Join(gs: seq<string>): string
    requires gs != []
  {
    gs[0] + Tail(gs[1..])
  }

  /** ([0-9a-f]){0,2} */
  predicate Group(g: string) { |g| <= 2 && forall i :: 0 <= i < |g| ==> IsHex(g[i]) }

  predicate Groups(gs: seq<string>) { forall i :: 0 <= i < |gs| ==> Group(gs[i]) }

  predicate NoColons(gs: seq<string>) { forall i :: 0 <= i < |gs| ==> ':' !in gs[i] }

  lemma {:induction false} JoinSplit(s: string)
    ensures Join(Split(s)) == s
  {
    if s != "" {
      JoinSplit(s[1..]);
      var rest := Split(s[1..]);
      if s[0] == ':' {
        assert ([""] + rest)[1..] == rest;
        assert "" + (":" + s[1..]) == s;
      } else {
        assert ([[s[0]] + rest[0]] + rest[1..])[1..] == rest[1..];
        assert [s[0]] + rest[0] + Tail(rest[1..]) == [s[0]] + s[1..] == s;
      }
    }
  }

  lemma {:induction false} SplitChars(g: string, tail: string)
    requires ':' !in g
    ensures Split(g + tail) == [g + Split(tail)[0]] + Split(tail)[1..]
  {
    if g == "" {
      assert g + tail == tail;
      assert g + Split(tail)[0] == Split(tail)[0];
    } else {
      assert (g + tail)[1..] == g[1..] + tail;
      SplitChars(g[1..], tail);
      assert [g[0]] + (g[1..] + Split(tail)[0]) == g + Split(tail)[0];
    }
  }

  lemma {:induction false} SplitJoin(gs: seq<string>)
    requires gs != [] && NoColons(gs)
    ensures Split(Join(gs)) == gs
  {
    var tail := Tail(gs[1..]);
    SplitChars(gs[0], tail);
    assert gs[0] + "" == gs[0];
    if |gs| > 1 {
      SplitJoin(gs[1..]);
      assert tail[1..] == Join(gs[1..]);
    }
  }

  lemma GroupHasNoColon(g: string)
    requires Group(g)
    ensures ':' !in g
  {
  }

  // ------------------------------------------------- the three replacements

  predicate Alnum(c: char) { '0' <= c <= '9' || 'a' <= c <= 'z' }

  /** 0(?=[0-9a-z]) becomes nothing. */
  function DropZeros(s: string): string {
    if s == "" then ""
    else if s[0] == '0' && |s| > 1 && Alnum(s[1]) then DropZeros(s[1..])
    else [s[0]] + DropZeros(s[1..])
  }

  /** :(?=:)|:$ becomes ":0". */
  function FillInner(s: string): string {
    if s == "" then ""
    else if s[0] == ':' && (|s| == 1 || s[1] == ':') then ":0" + FillInner(s[1..])
    else [s[0]] + FillInner(s[1..])
  }

  /** ^: becomes "0:". */
  function FillFirst(s: string): string {
    if s != "" && s[0] == ':' then "0" + s else s
  }

  /** validateMacAddress; None when the address is refused. */
  function ValidateMac(mac: string): Option<string> {
    var low := Lower(mac);
    if |Split(low)| == 6 && Groups(Split(low)) then Some(FillFirst(FillInner(DropZeros(low)))) else None
  }

  // --------------------------------------------------------- their meaning

  function Stripped(g: string): string { if |g| == 2 && g[0] == '0' then g[1..] else g }

  function Filled(g: string): string { if g == "" then "0" else g }

  function MapStripped(gs: seq<string>): seq<string> {
    if gs == [] then [] else [Stripped(gs[0])] + MapStripped(gs[1..])
  }

  function MapFilled(gs: seq<string>): seq<string> {
    if gs == [] then [] else [Filled(gs[0])] + MapFilled(gs[1..])
  }

  lemma DropZerosInGroup(g: string, tail: string)
    requires Group(g) && (tail == "" || tail[0] == ':')
    ensures DropZeros(g + tail) == Stripped(g) + DropZeros(tail)
  {
    if |g| == 0 {
      assert g + tail == tail;
    } else if |g| == 1 {
      assert (g + tail)[1..] == tail;
    } else {
      assert (g + tail)[1..] == g[1..] + tail && (g[1..] + tail)[1..] == tail;
      assert g[1..] == [g[1]];
    }
  }

  lemma {:induction false} DropZerosInTail(gs: seq<string>)
    requires Groups(gs)
    ensures DropZeros(Tail(gs)) == Tail(MapStripped(gs))
  {
    hide Stripped, Group, Alnum;
    if gs != [] {
      assert Tail(gs)[1..] == gs[0] + Tail(gs[1..]);
      DropZerosInGroup(gs[0], Tail(gs[1..]));
      DropZerosInTail(gs[1..]);
      assert MapStripped(gs)[1..] == MapStripped(gs[1..]);
    }
  }

  lemma DropZerosMeans(gs: seq<string>)
    requires gs != [] && Groups(gs)
    ensures DropZeros(Join(gs)) == Join(MapStripped(gs))
  {
    hide Stripped, Group, DropZeros;
    DropZerosInGroup(gs[0], Tail(gs[1..]));
    DropZerosInTail(gs[1..]);
    assert MapStripped(gs)[1..] == MapStripped(gs[1..]);
  }

  lemma {:induction false} FillInGroup(g: string, tail: string)
    requires ':' !in g
    ensures FillInner(g + tail) == g + FillInner(tail)
  {
    if g == "" {
      assert g + tail == tail;
    } else {
      assert (g + tail)[1..] == g[1..] + tail;
      FillInGroup(g[1..], tail);
      assert [g[0]] + (g[1..] + FillInner(tail)) == g + FillInner(tail);
    }
  }

  /** A group after a colon is filled. */
  lemma FillBehindColon(g: string, tail: string)
    requires ':' !in g && (tail == "" || tail[0] == ':')
    ensures FillInner(":" + (g + tail)) == ":" + (Filled(g) + FillInner(tail))
  {
    var s := ":" + (g + tail);
    assert s[1..] == g + tail;
    FillInGroup(g, tail);
    if g == "" {
      assert g + tail == tail && g + FillInner(tail) == FillInner(tail);
      assert ":0" + FillInner(tail) == ":" + ("0" + FillInner(tail));
    } else {
      assert s[1] == g[0];
    }
  }

  lemma {:induction false} FillInTail(gs: seq<string>)
    requires NoColons(gs)
    ensures FillInner(Tail(gs)) == Tail(MapFilled(gs))
  {
    hide Filled;
    if gs != [] {
      FillBehindColon(gs[0], Tail(gs[1..]));
      FillInTail(gs[1..]);
      assert MapFilled(gs)[1..] == MapFilled(gs[1..]);
    }
  }

  lemma FillMeans(gs: seq<string>)
    requires |gs| > 1 && NoColons(gs)
    ensures FillFirst(FillInner(Join(gs))) == Join(MapFilled(gs))
  {
    hide FillInner;
    FillInGroup(gs[0], Tail(gs[1..]));
    FillInTail(gs[1..]);
    assert MapFilled(gs)[1..] == MapFilled(gs[1..]);
    var rest := Tail(MapFilled(gs[1..]));
    if gs[0] == "" {
      assert gs[0] + rest == rest;
    }
  }

  /** The byte a group stands for; nothing stands for 0. */
  function Value(g: string): nat
    requires Group(g)
  {
    if |g| == 0 then 0 else if |g| == 1 then DigitOf(g[0]) else 16 * DigitOf(g[0]) + DigitOf(g[1])
  }

  /** One byte through std::hex. */
  function Printed(b: nat): string
    requires b < 256
  {
    if b < 16 then [CharOf(b)] else [CharOf(b / 16), CharOf(b % 16)]
  }

  /** Stripping and filling a group is printing its value. */
  lemma CanonicalGroup(g: string)
    requires Group(g)
    ensures Value(g) < 256 && Filled(Stripped(g)) == Printed(Value(g))
  {
    assert forall i :: 0 <= i < |g| ==> CharOf(DigitOf(g[i])) == g[i];
  }

  lemma PrintedIsGroup(b: nat)
    requires b < 256
    ensures Group(Printed(b)) && Value(Printed(b)) == b
  {
  }

  function Values(gs: seq<string>): (vs: seq<nat>)
    requires Groups(gs)
    ensures |vs| == |gs| && forall i :: 0 <= i < |gs| ==> vs[i] == Value(gs[i])
  {
    seq(|gs|, i requires 0 <= i < |gs| => Value(gs[i]))
  }

  predicate Octets(vs: seq<nat>) { vs != [] && forall i :: 0 <= i < |vs| ==> vs[i] < 256 }

  function PrintedAll(vs: seq<nat>): (gs: seq<string>)
    requires Octets(vs)
    ensures |gs| == |vs| && forall i :: 0 <= i < |vs| ==> gs[i] == Printed(vs[i])
  {
    seq(|vs|, i requires 0 <= i < |vs| => Printed(vs[i]))
  }

  /** What getMAC prints for six bytes. */
  function PrintMac(vs: seq<nat>): string
    requires Octets(vs)
  {
    Join(PrintedAll(vs))
  }

  /** An address is accepted exactly if it is six groups of at most two hexadecimal digits, and its
      canonical form is what getMAC prints for its six bytes. */
  lemma CanonicalForm(mac: string)
    ensures ValidateMac(mac).Some? <==> |Split(Lower(mac))| == 6 && Groups(Split(Lower(mac)))
    ensures ValidateMac(mac).Some? ==>
              var vs := Values(Split(Lower(mac)));
              Octets(vs) && ValidateMac(mac).value == PrintMac(vs)
  {
    if ValidateMac(mac).Some? {
      hide DropZeros, FillInner, FillFirst, Stripped, Filled, Value, Printed, Split;
      var gs := Split(Lower(mac));
      JoinSplit(Lower(mac));
      DropZerosMeans(gs);
      StrippedAndFilled(gs);
      FillMeans(MapStripped(gs));
      assert MapFilled(MapStripped(gs)) == PrintedAll(Values(gs));
    }
  }

  lemma {:induction false} StrippedAndFilled(gs: seq<string>)
    requires Groups(gs)
    ensures |MapStripped(gs)| == |gs| && NoColons(MapStripped(gs))
    ensures forall i :: 0 <= i < |gs| ==> Value(gs[i]) < 256
    ensures |MapFilled(MapStripped(gs))| == |gs|
    ensures forall i :: 0 <= i < |gs| ==> MapFilled(MapStripped(gs))[i] == Printed(Value(gs[i]))
  {
    hide Value, Printed, Filled;
    if gs != [] {
      CanonicalGroup(gs[0]);
      GroupHasNoColon(gs[0]);
      StrippedAndFilled(gs[1..]);
      var hs := MapStripped(gs);
      assert hs[1..] == MapStripped(gs[1..]);
    }
  }

  lemma {:induction false} TailChars(gs: seq<string>)
    requires Groups(gs)
    ensures forall i :: 0 <= i < |Tail(gs)| ==> IsHex(Tail(gs)[i]) || Tail(gs)[i] == ':'
  {
    if gs != [] {
      TailChars(gs[1..]);
    }
  }

  lemma JoinChars(gs: seq<string>)
    requires gs != [] && Groups(gs)
    ensures forall i :: 0 <= i < |Join(gs)| ==> IsHex(Join(gs)[i]) || Join(gs)[i] == ':'
    ensures Lower(Join(gs)) == Join(gs)
  {
    assert Group(gs[0]);
    TailChars(gs[1..]);
  }

  /** Every six bytes have one canonical address, which is accepted and left alone. */
  lemma PrintedIsCanonical(vs: seq<nat>)
    requires |vs| == 6 && Octets(vs)
    ensures ValidateMac(PrintMac(vs)) == Some(PrintMac(vs)) && Split(PrintMac(vs)) == PrintedAll(vs)
  {
    var gs := PrintedAll(vs);
    forall i | 0 <= i < |gs| ensures Group(gs[i]) && ':' !in gs[i] && Value(gs[i]) == vs[i] {
      PrintedIsGroup(vs[i]);
      GroupHasNoColon(gs[i]);
    }
    SplitJoin(gs);
    JoinChars(gs);
    CanonicalForm(PrintMac(vs));
    assert Values(gs) == vs;
  }

  /** Two spellings have the same canonical form exactly if they mean the same six bytes; and
      canonicalising twice is canonicalising once. */
  lemma SameBytesSameForm(a: string, b: string)
    requires ValidateMac(a).Some? && ValidateMac(b).Some?
    ensures ValidateMac(a) == ValidateMac(b) <==> Values(Split(Lower(a))) == Values(Split(Lower(b)))
    ensures ValidateMac(ValidateMac(a).value) == ValidateMac(a)
  {
    CanonicalForm(a);
    CanonicalForm(b);
    var va, vb := Values(Split(Lower(a))), Values(Split(Lower(b)));
    PrintedIsCanonical(va);
    PrintedIsCanonical(vb);
    if PrintMac(va) == PrintMac(vb) {
      forall i | 0 <= i < 6 ensures va[i] == vb[i] {
        PrintedIsGroup(va[i]);
        PrintedIsGroup(vb[i]);
        assert PrintedAll(va)[i] == PrintedAll(vb)[i];
      }
    }
  }

  // ----------------------------------------------------------------- folders

  function Dashed(mac: string): (r: string)
    ensures |r| == |mac| && forall i :: 0 <= i < |mac| ==> r[i] == if mac[i] == ':' then '-' else mac[i]
  {
    seq(|mac|, i requires 0 <= i < |mac| => if mac[i] == ':' then '-' else mac[i])
  }

  /** The name of a backup folder below the base path of the server. */
  function FolderName(user: string, mac: string): string { user + "_" + Dashed(mac) }

  lemma CanonicalChars(mac: string)
    requires ValidateMac(mac) == Some(mac)
    ensures forall i :: 0 <= i < |mac| ==> IsHex(mac[i]) || mac[i] == ':'
  {
    CanonicalForm(mac);
    var vs := Values(Split(Lower(mac)));
    forall i | 0 <= i < |PrintedAll(vs)| ensures Group(PrintedAll(vs)[i]) {
      PrintedIsGroup(vs[i]);
    }
    JoinChars(PrintedAll(vs));
  }

  /** User and machine can be read off the folder name, whatever underscores and dashes the user name
      contains: the last underscore separates them. */
  lemma FoldersAreDistinct(u1: string, m1: string, u2: string, m2: string)
    requires ValidateMac(m1) == Some(m1) && ValidateMac(m2) == Some(m2)
    requires FolderName(u1, m1) == FolderName(u2, m2)
    ensures u1 == u2 && m1 == m2
  {
    hide ValidateMac, FolderName, Dashed;
    CanonicalChars(m1);
    CanonicalChars(m2);
    LastUnderscore(u1, m1);
    LastUnderscore(u2, m2);
    assert |u1| == |u2|;
    assert u1 == FolderName(u1, m1)[..|u1|] == u2;
    forall i | 0 <= i < |m1| ensures m1[i] == m2[i] {
      assert FolderName(u1, m1)[|u1| + 1..][i] == Dashed(m1)[i] == Dashed(m2)[i];
    }
  }

  lemma LastUnderscore(u: string, m: string)
    requires forall i :: 0 <= i < |m| ==> IsHex(m[i]) || m[i] == ':'
    ensures var n := FolderName(u, m);
            && |n| == |u| + 1 + |m| && n[..|u|] == u && n[|u|] == '_' && n[|u| + 1..] == Dashed(m)
            && forall i :: |u| < i < |n| ==> n[i] != '_'
  {
    var n := FolderName(u, m);
    assert forall i :: |u| < i < |n| ==> n[i] == Dashed(m)[i - |u| - 1] != '_';
  }
}

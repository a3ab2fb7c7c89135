/**
 * The home screen's two decisions (client/src/screens/HomeScreen.jsx):
 * whether the stored game can be resumed, and whether the theme's heading
 * colour is light, which picks dark or light button text.
 *
 * `parseInt(piece, 16)` is modelled as JavaScript defines it: leading white
 * space skipped, an optional sign, an optional `0x`/`0X` prefix, then the
 * longest run of hexadecimal digits; no digit at all gives NaN (None), and
 * NaN makes the brightness comparison false.
 */
module Home {
  import opened Options
  import opened Board
  import opened LocalStore

  // ---------------------------------------------------------------------
  // canResume
  // ---------------------------------------------------------------------

  /** `gameStarted && board.some(cell => cell !== null) && !winner` on the local store. */
  predicate CanResume(s: State)
  {
    && s.gameStarted
    && (exists i :: 0 <= i < |s.board| && s.board[i].Some?)
    && s.winner.Ongoing?
  }

  /** A reset or a size change leaves nothing to resume. */
  lemma NothingToResumeAfterReset(s: State, n: nat)
    ensures !CanResume(Reset(s)) && !CanResume(Resize(s, n))
  {
  }

  /** A move that does not end the game leaves a game to resume. */
  lemma MoveMakesResumable(s: State, index: int)
    requires Moves(s, index) && Play(s, index).winner.Ongoing?
    ensures CanResume(Play(s, index))
  {
    assert Play(s, index).board[index].Some?;
  }

  /** A won or drawn game is never offered for resumption. */
  lemma FinishedNotResumable(s: State)
    requires !s.winner.Ongoing?
    ensures !CanResume(s)
  {
  }

  // ---------------------------------------------------------------------
  // parseInt(_, 16)
  // ---------------------------------------------------------------------

  /** The characters `parseInt` skips at the start: white space and line terminators. */
  predicate IsSpace(c: char)
  {
    || c == ' ' || c == '\t' || c == '\n' || c == '\r' || c == '\U{000B}' || c == '\U{000C}'
    || c == '\U{00A0}' || c == '\U{FEFF}' || c == '\U{1680}' || ('\U{2000}' <= c <= '\U{200A}')
    || c == '\U{2028}' || c == '\U{2029}' || c == '\U{202F}' || c == '\U{205F}' || c == '\U{3000}'
  }

  predicate IsHexDigit(c: char)
  {
    ('0' <= c <= '9') || ('a' <= c <= 'f') || ('A' <= c <= 'F')
  }

  function HexValue(c: char): (v: nat)
    requires IsHexDigit(c)
    ensures v < 16
  {
    if '0' <= c <= '9' then c as int - '0' as int
    else if 'a' <= c <= 'f' then c as int - 'a' as int + 10
    else c as int - 'A' as int + 10
  }

  function TrimStart(s: string): (t: string)
    ensures |t| <= |s|
    ensures |t| > 0 ==> !IsSpace(t[0])
  {
    if |s| > 0 && IsSpace(s[0]) then TrimStart(s[1..]) else s
  }

  /** The value of the leading run of hex digits of `s`, continuing from `acc`. */
  function RunValue(s: string, acc: nat): nat
  {
    if |s| == 0 || !IsHexDigit(s[0]) then acc else RunValue(s[1..], acc * 16 + HexValue(s[0]))
  }

  /** `parseInt(s, 16)`; None is NaN. */
  function ParseHex(s: string): (r: Option<int>)
  {
    var t := TrimStart(s);
    var negative := |t| > 0 && t[0] == '-';
    var u := if |t| > 0 && (t[0] == '-' || t[0] == '+') then t[1..] else t;
    var v := if |u| >= 2 && u[0] == '0' && (u[1] == 'x' || u[1] == 'X') then u[2..] else u;
    var magnitude: int := RunValue(v, 0);
    if |v| == 0 || !IsHexDigit(v[0]) then None
    else if negative then Some(-magnitude)
    else Some(magnitude)
  }

  /** `c.substr(start, len)` for non-negative arguments. */
  function Substr(c: string, start: nat, len: nat): (p: string)
    ensures |p| <= len
  {
    var from := if start <= |c| then start else |c|;
    var to := if start + len <= |c| then start + len else |c|;
    c[from..to]
  }

  // ---------------------------------------------------------------------
  // isColorLight, autoButtonText
  // ---------------------------------------------------------------------

  /**
   * `isColorLight(hex)`: false for a missing or empty colour or one not
   * starting with `#`; otherwise the pieces after `#` at 0, 2 and 4 (two
   * characters each) are parsed as hex and the colour is light when the
   * weighted brightness exceeds 180, that is `299r + 587g + 114b > 180000`.
   */
  function IsColorLight(hex: Option<string>): (light: bool)
    ensures light ==> hex.Some? && |hex.value| > 0 && hex.value[0] == '#'
  {
    if hex.None? || |hex.value| == 0 || hex.value[0] != '#' then false
    else
      var c := hex.value[1..];
      var r := ParseHex(Substr(c, 0, 2));
      var g := ParseHex(Substr(c, 2, 2));
      var b := ParseHex(Substr(c, 4, 2));
      r.Some? && g.Some? && b.Some? && r.value * 299 + g.value * 587 + b.value * 114 > 180000
  }

  /** The byte written by two hex digits. */
  function Byte(hi: char, lo: char): nat
    requires IsHexDigit(hi) && IsHexDigit(lo)
  {
    16 * HexValue(hi) + HexValue(lo)
  }

  /** Two hex digits parse to the byte they write. */
  lemma ParsePair(p: string)
    requires |p| == 2 && IsHexDigit(p[0]) && IsHexDigit(p[1])
    ensures ParseHex(p) == Some(Byte(p[0], p[1]))
  {
    assert !IsSpace(p[0]) && p[0] != '-' && p[0] != '+' && p[1] != 'x' && p[1] != 'X';
    assert TrimStart(p) == p;
    assert RunValue(p, 0) == RunValue(p[1..], HexValue(p[0]));
    assert RunValue(p[1..], HexValue(p[0])) == RunValue(p[1..][1..], Byte(p[0], p[1]));
    assert p[1..][1..] == [];
  }

  /** A well-formed `#rrggbb` is light exactly when its weighted brightness exceeds 180. */
  lemma WellFormedLight(d: string)
    requires |d| == 6 && forall i :: 0 <= i < 6 ==> IsHexDigit(d[i])
    ensures IsColorLight(Some("#" + d)) <==>
      299 * Byte(d[0], d[1]) + 587 * Byte(d[2], d[3]) + 114 * Byte(d[4], d[5]) > 180000
  {
    var c := ("#" + d)[1..];
    assert c == d;
    assert Substr(c, 0, 2) == [d[0], d[1]];
    assert Substr(c, 2, 2) == [d[2], d[3]];
    assert Substr(c, 4, 2) == [d[4], d[5]];
    ParsePair([d[0], d[1]]);
    ParsePair([d[2], d[3]]);
    ParsePair([d[4], d[5]]);
  }

  /** White headings are light. */
  lemma WhiteIsLight()
    ensures IsColorLight(Some("#ffffff"))
  {
    WellFormedLight("ffffff");
    assert "#" + "ffffff" == "#ffffff";
  }

  /** Black headings are not light. */
  lemma BlackIsDark()
    ensures !IsColorLight(Some("#000000"))
  {
    WellFormedLight("000000");
    assert "#" + "000000" == "#000000";
  }

  /** The three-digit shorthand `#fff` is never light: its blue piece is empty and parses to NaN. */
  lemma ShorthandNeverLight()
    ensures !IsColorLight(Some("#fff"))
  {
    var c := "#fff"[1..];
    assert Substr(c, 4, 2) == [];
  }

  /** `autoButtonText`: black text on a light heading colour, white otherwise. */
  function AutoButtonText(heading: Option<string>): (text: string)
    ensures text == "#000000" <==> IsColorLight(heading)
    ensures text == "#000000" || text == "#ffffff"
  {
    if IsColorLight(heading) then "#000000" else "#ffffff"
  }
}

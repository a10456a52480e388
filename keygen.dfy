/** What the two license-issuing tools share: reading a flag's value from
    argv and drawing keys of the form LIC-XXXX-XXXX. `Math.random` is the
    oracle `random`: its n-th draw, already scaled and floored, is an index
    into the 32-character alphabet. */
module KeyGen {
  import opened Options
  import Text
  import opened LicenseStore

  /** `getArg(flag)`: the element after the first occurrence of `flag`, or
      null when the flag is absent or that element is missing or empty. */
  function GetArg(argv: seq<string>, flag: string): (r: Option<string>)
    ensures flag !in argv ==> r == None
    ensures r.Some? ==>
      exists i :: 0 <= i < |argv| - 1 && argv[i] == flag && flag !in argv[..i] && r.value == argv[i + 1] && r.value != ""
    ensures r.None? && flag in argv ==>
      exists i :: 0 <= i < |argv| && argv[i] == flag && flag !in argv[..i] && (i == |argv| - 1 || argv[i + 1] == "")
  {
    var idx := Text.IndexOf(argv, flag);
    if idx == -1 then None
    else if idx + 1 < |argv| && argv[idx + 1] != "" then Some(argv[idx + 1])
    else None
  }

  /** The flag's value is the first element after it, even one that looks
      like another flag. */
  lemma GetArgExamples()
    ensures GetArg(["node", "issue", "--email", "a@b.c"], "--email") == Some("a@b.c")
    ensures GetArg(["node", "issue", "--email", "--status", "x"], "--email") == Some("--status")
  {
    assert Text.IndexOf(["node", "issue", "--email", "a@b.c"], "--email") == 2;
    assert Text.IndexOf(["node", "issue", "--email", "--status", "x"], "--email") == 2;
  }

  /** A flag that is last, followed by "", or absent gives nothing. */
  lemma GetArgMissingExamples()
    ensures GetArg(["node", "issue", "--email"], "--email") == None
    ensures GetArg(["node", "issue", "--email", ""], "--email") == None
    ensures GetArg(["node", "issue"], "--email") == None
  {
    assert Text.IndexOf(["node", "issue", "--email"], "--email") == 2;
    assert Text.IndexOf(["node", "issue", "--email", ""], "--email") == 2;
  }

  /** `(getArg("--status") || "ACTIVE").toUpperCase()`. */
  function StatusArg(argv: seq<string>): (s: string)
    ensures GetArg(argv, "--status").None? ==> s == "ACTIVE"
    ensures GetArg(argv, "--status").Some? ==> s == Text.ToUpper(GetArg(argv, "--status").value)
    ensures Text.ToUpper(s) == s
  {
    var given := GetArg(argv, "--status");
    var s := Text.ToUpper(if Truthy(given) then given.value else "ACTIVE");
    Text.ToUpperIdempotent(if Truthy(given) then given.value else "ACTIVE");
    s
  }

  /** Upper-case letters and digits without O, 0, I and 1. */
  const ALPHABET: string := "ABCDEFGHJKLMNPQRSTUVWXYZ23456789"

  predicate Increasing(s: string) {
    forall i :: 0 <= i < |s| - 1 ==> s[i] < s[i + 1]
  }

  lemma {:induction false} IncreasingIsStrict(s: string, i: nat, j: nat)
    requires Increasing(s) && i < j < |s|
    ensures s[i] < s[j]
    decreases j - i
  {
    if i + 1 < j {
      IncreasingIsStrict(s, i + 1, j);
    }
  }

  /** Every character is an upper-case letter other than I and O, or a
      digit other than 0 and 1. */
  lemma AlphabetCharacters()
    ensures |ALPHABET| == 32
    ensures forall c :: c in ALPHABET ==> ('A' <= c <= 'Z' && c != 'I' && c != 'O') || ('2' <= c <= '9')
  {
  }

  /** No character occurs twice: 24 letters in order, then 8 digits in order. */
  lemma AlphabetDistinct()
    ensures forall i, j :: 0 <= i < j < |ALPHABET| ==> ALPHABET[i] != ALPHABET[j]
  {
    var letters, digits := ALPHABET[..24], ALPHABET[24..];
    LettersIncreasing();
    DigitsIncreasing();
    forall i, j | 0 <= i < j < |ALPHABET| ensures ALPHABET[i] != ALPHABET[j] {
      if j < 24 {
        IncreasingIsStrict(letters, i, j);
      } else if 24 <= i {
        IncreasingIsStrict(digits, i - 24, j - 24);
        assert digits[i - 24] == ALPHABET[i] && digits[j - 24] == ALPHABET[j];
      } else {
        assert 'A' <= letters[i] && digits[j - 24] <= '9';
      }
    }
  }

  lemma LettersIncreasing()
    ensures ALPHABET[..24] == "ABCDEFGHJKLMNPQRSTUVWXYZ" && Increasing(ALPHABET[..24])
  {
    assert ALPHABET[..24] == "ABCDEFGHJKLMNPQRSTUVWXYZ";
  }

  lemma DigitsIncreasing()
    ensures ALPHABET[24..] == "23456789" && Increasing(ALPHABET[24..])
  {
    assert ALPHABET[24..] == "23456789";
  }

  /** One draw: `Math.floor(Math.random() * alphabet.length)`. */
  type Draw = x: int | 0 <= x < 32

  /** The n characters drawn from `random(start)` on. */
  function ChunkAt(random: nat -> Draw, start: nat, n: nat): (s: string)
    ensures |s| == n
    ensures forall c :: c in s ==> c in ALPHABET
  {
    seq(n, i requires 0 <= i < n => ALPHABET[random(start + i)])
  }

  /** The draws at `start`, ..., `start + n - 1`. */
  function DrawsAt(random: nat -> Draw, start: nat, n: nat): (d: seq<Draw>)
    ensures |d| == n
  {
    seq(n, i requires 0 <= i < n => random(start + i))
  }

  /** `chunk(n)`: appends one drawn character per round. */
  method Chunk(random: nat -> Draw, start: nat, n: nat) returns (out: string)
    ensures out == ChunkAt(random, start, n)
  {
    out := "";
    var i := 0;
    while i < n
      invariant 0 <= i <= n
      invariant out == ChunkAt(random, start, i)
    {
      out := out + [ALPHABET[random(start + i)]];
      i := i + 1;
    }
  }

  /** The key drawn from `random(start)` to `random(start + 7)`. */
  function KeyAt(random: nat -> Draw, start: nat): string {
    "LIC-" + ChunkAt(random, start, 4) + "-" + ChunkAt(random, start + 4, 4)
  }

  /** `randomKey()`, consuming eight draws. */
  method RandomKey(random: nat -> Draw, start: nat) returns (key: string)
    ensures key == KeyAt(random, start)
  {
    var a := Chunk(random, start, 4);
    var b := Chunk(random, start + 4, 4);
    key := "LIC-" + a + "-" + b;
  }

  /** The template LIC-XXXX-XXXX with every X from the alphabet. */
  predicate IsLicenseKey(k: string) {
    && |k| == 13 && k[..4] == "LIC-" && k[8] == '-'
    && (forall i :: 4 <= i < 8 ==> k[i] in ALPHABET)
    && (forall i :: 9 <= i < 13 ==> k[i] in ALPHABET)
  }

  lemma KeyAtIsLicenseKey(random: nat -> Draw, start: nat)
    ensures IsLicenseKey(KeyAt(random, start))
  {
    var k := KeyAt(random, start);
    assert k[4..8] == ChunkAt(random, start, 4);
    assert k[9..13] == ChunkAt(random, start + 4, 4);
    assert forall i :: 4 <= i < 8 ==> k[i] == k[4..8][i - 4];
    assert forall i :: 9 <= i < 13 ==> k[i] == k[9..13][i - 9];
  }

  /** The key records its eight draws: two keys are equal only when they
      came from the same draws. */
  lemma KeyDeterminesDraws(r1: nat -> Draw, s1: nat, r2: nat -> Draw, s2: nat)
    requires KeyAt(r1, s1) == KeyAt(r2, s2)
    ensures DrawsAt(r1, s1, 8) == DrawsAt(r2, s2, 8)
  {
    KeyParts(r1, s1);
    KeyParts(r2, s2);
    ChunkDeterminesDraws(r1, s1, r2, s2, 4);
    ChunkDeterminesDraws(r1, s1 + 4, r2, s2 + 4, 4);
    DrawsSplit(r1, s1);
    DrawsSplit(r2, s2);
  }

  /** The two chunks of a key sit at positions 4 to 7 and 9 to 12. */
  lemma KeyParts(random: nat -> Draw, start: nat)
    ensures KeyAt(random, start)[4..8] == ChunkAt(random, start, 4)
    ensures KeyAt(random, start)[9..13] == ChunkAt(random, start + 4, 4)
  {
  }

  /** Since no character occurs twice in the alphabet, a chunk gives back
      its draws. */
  lemma ChunkDeterminesDraws(r1: nat -> Draw, s1: nat, r2: nat -> Draw, s2: nat, n: nat)
    requires ChunkAt(r1, s1, n) == ChunkAt(r2, s2, n)
    ensures DrawsAt(r1, s1, n) == DrawsAt(r2, s2, n)
  {
    AlphabetDistinct();
    forall i | 0 <= i < n ensures DrawsAt(r1, s1, n)[i] == DrawsAt(r2, s2, n)[i] {
      assert ChunkAt(r1, s1, n)[i] == ALPHABET[r1(s1 + i)];
      assert ChunkAt(r2, s2, n)[i] == ALPHABET[r2(s2 + i)];
    }
  }

  /** Eight draws are the first four followed by the next four. */
  lemma DrawsSplit(random: nat -> Draw, start: nat)
    ensures DrawsAt(random, start, 8) == DrawsAt(random, start, 4) + DrawsAt(random, start + 4, 4)
  {
  }

  /** How many candidates the tools try. */
  const MAX_TRIES: nat := 10

  /** Candidate number i takes the draws 8i to 8i + 7. */
  function Candidate(random: nat -> Draw, i: nat): string {
    KeyAt(random, 8 * i)
  }

  /** The first of the candidates i, ..., MAX_TRIES - 1 not in the table. */
  function FirstFree(rows: Table, random: nat -> Draw, i: nat): (r: Option<nat>)
    ensures r.Some? ==> i <= r.value < MAX_TRIES && Candidate(random, r.value) !in rows
    ensures r.Some? ==> forall j :: i <= j < r.value ==> Candidate(random, j) in rows
    ensures r.None? ==> forall j :: i <= j < MAX_TRIES ==> Candidate(random, j) in rows
    decreases MAX_TRIES - i
  {
    if i >= MAX_TRIES then None
    else if Candidate(random, i) !in rows then Some(i)
    else FirstFree(rows, random, i + 1)
  }
}

// The commands that identify heartbeats, and which log lines they match.
module Commands {
  import opened Text
  import opened Tasks

  const PING: string := "ps "

  /** A 32-digit lower-case hex token. */
  predicate IsToken(t: string) {
    |t| == 32 && forall i :: 0 <= i < 32 ==> '0' <= t[i] <= '9' || 'a' <= t[i] <= 'f'
  }

  function Ping(token: string): string {
    PING + token
  }

  function Touch(token: string): string {
    TOUCH + token + RESET
  }

  predicate IsPing(command: string) {
    |command| == 35 && command[..3] == PING && IsToken(command[3..])
  }

  predicate IsTouch(command: string) {
    |command| == 66 && command[..11] == TOUCH && IsToken(command[11..43]) && command[43..] == RESET
  }

  function TouchToken(command: string): string
    requires |command| == 66
  {
    command[11..43]
  }

  lemma TouchIsTouch(token: string)
    requires IsToken(token)
    ensures IsTouch(Touch(token)) && TouchToken(Touch(token)) == token
  {
    var c := Touch(token);
    assert c[..11] == TOUCH && c[11..43] == token && c[43..] == RESET;
  }

  lemma PingIsPing(token: string)
    requires IsToken(token)
    ensures IsPing(Ping(token))
  {
    assert Ping(token)[..3] == PING && Ping(token)[3..] == token;
  }

  /** A command has exactly one space, so any text with a space can occur in it at one place only. */
  lemma OnlySpace(command: string, i: nat)
    requires IsPing(command) || IsTouch(command)
    requires i < |command|
    ensures command[i] == ' ' <==> i == (if IsPing(command) then 2 else 5)
  {
    if IsPing(command) {
      assert i >= 3 ==> command[i] == command[3..][i - 3];
      assert i < 3 ==> command[i] == PING[i];
    } else {
      assert i < 11 ==> command[i] == TOUCH[i];
      assert 11 <= i < 43 ==> command[i] == command[11..43][i - 11];
      assert i >= 43 ==> command[i] == RESET[i - 43];
    }
  }

  lemma OccursMeansEqualChars(s: string, sub: string, j: nat, k: nat)
    requires OccursAt(s, sub, j) && k < |sub|
    ensures j + k < |s| && s[j + k] == sub[k]
  {
    assert s[j..][k] == s[j + k];
  }

  lemma TouchMatchesOnlyItself(command: string, token: string, j: nat)
    requires IsPing(command) || IsTouch(command)
    requires IsToken(token) && OccursAt(command, TOUCH + token, j)
    ensures IsTouch(command) && TouchToken(command) == token
  {
    var line := TOUCH + token;
    OccursMeansEqualChars(command, line, j, 5);
    OccursMeansEqualChars(command, line, j, 42);
    OnlySpace(command, j + 5);
    assert j == 0 && command[0..] == command;
    assert command[11..43] == line[11..] == token;
  }

  /** The executed touch command matches a task exactly when the task carries the same token. */
  lemma TouchMatchesExactly(command: string, token: string)
    requires IsPing(command) || IsTouch(command)
    requires IsToken(token)
    ensures Contains(command, TOUCH + token) <==> IsTouch(command) && TouchToken(command) == token
  {
    var line := TOUCH + token;
    if IsTouch(command) && TouchToken(command) == token {
      assert command == line + RESET;
      assert OccursAt(command, line, 0);
    }
    if Contains(command, line) {
      var j :| 0 <= j <= |command| && OccursAt(command, line, j);
      TouchMatchesOnlyItself(command, token, j);
    }
  }

  /** A ping matches exactly the tasks that still carry that ping. */
  lemma PingMatchesExactly(command: string, token: string)
    requires IsPing(command) || IsTouch(command)
    requires IsToken(token)
    ensures Contains(command, Ping(token)) <==> command == Ping(token)
  {
    var line := Ping(token);
    if command == line {
      assert OccursAt(command, line, 0);
    }
    assert IsTouch(command) ==> command[3] == TOUCH[3] == 'c';
    if Contains(command, line) {
      var j :| 0 <= j <= |command| && OccursAt(command, line, j);
      OccursMeansEqualChars(command, line, j, 0);
      OccursMeansEqualChars(command, line, j, 2);
      OccursMeansEqualChars(command, line, j, 34);
      OnlySpace(command, j + 2);
      assert command[j..] == command;
    }
  }

  // ------------------------------------------------ which lines name one command

  lemma ContainsTransitive(a: string, b: string, c: string)
    requires Contains(a, b) && Contains(b, c)
    ensures Contains(a, c)
  {
    var i :| 0 <= i <= |a| && OccursAt(a, b, i);
    var j :| 0 <= j <= |b| && OccursAt(b, c, j);
    assert a[i + j..] == a[i..][j..];
    assert OccursAt(a, c, i + j);
  }

  predicate IsHexDigit(c: char) {
    '0' <= c <= '9' || 'a' <= c <= 'f'
  }

  /** The slash before the token and the semicolon behind it keep any other token out. */
  lemma TokenOccursOnce(command: string, token: string, j: nat)
    requires IsTouch(command) && IsToken(token) && OccursAt(command, token, j)
    ensures TouchToken(command) == token
  {
    assert command[10] == TOUCH[10] == '/' && command[43] == command[43..][0] == RESET[0] == ';';
    forall i | j <= i < j + 32 ensures i < |command| && IsHexDigit(command[i]) {
      OccursMeansEqualChars(command, token, j, i - j);
    }
    assert !(j <= 10 < j + 32) && !(j <= 43 < j + 32);
    assert command[11..][..32] == command[11..43];
  }

  /** Another token that agrees with this one everywhere but at `q`. */
  function OtherToken(token: string, q: nat): (other: string)
    requires IsToken(token) && q < 32
    ensures IsToken(other) && other != token
  {
    var other := token[q := if token[q] == '0' then '1' else '0'];
    assert other[q] != token[q];
    other
  }

  /** A part of the command that leaves out some place of the token is a part of another token's command. */
  lemma PartOfAnother(token: string, line: string, j: nat, q: nat)
    requires IsToken(token) && OccursAt(Touch(token), line, j) && q < 32
    requires 11 + q < j || j + |line| <= 11 + q
    ensures Contains(Touch(OtherToken(token, q)), line)
  {
    var a, b := Touch(token), Touch(OtherToken(token, q));
    assert forall i :: 0 <= i < |a| && i != 11 + q ==> a[i] == b[i];
    assert |line| <= |b[j..]|;
    forall i | 0 <= i < |line| ensures b[j..][i] == line[i] {
      OccursMeansEqualChars(a, line, j, i);
    }
    assert line == b[j..][..|line|];
    assert OccursAt(b, line, j);
  }

  /**
   * A line that occurs in the command of one token occurs in no other token's command if and
   * only if it contains the token.
   */
  lemma LineNamesTokenExactly(token: string, line: string)
    requires IsToken(token) && Contains(Touch(token), line)
    ensures (forall other | IsToken(other) && other != token :: !Contains(Touch(other), line))
        <==> Contains(line, token)
  {
    if Contains(line, token) {
      forall other | IsToken(other) && other != token ensures !Contains(Touch(other), line) {
        if Contains(Touch(other), line) {
          NamesOneToken(other, token, line);
        }
      }
    } else {
      var j :| 0 <= j <= |Touch(token)| && OccursAt(Touch(token), line, j);
      PlaceLeftOut(token, line, j);
      PartOfAnother(token, line, j, if j > 11 then 0 else 31);
    }
  }

  lemma NamesOneToken(other: string, token: string, line: string)
    requires IsToken(other) && IsToken(token) && Contains(line, token) && Contains(Touch(other), line)
    ensures other == token
  {
    ContainsTransitive(Touch(other), line, token);
    TouchIsTouch(other);
    var j :| 0 <= j <= |Touch(other)| && OccursAt(Touch(other), token, j);
    TokenOccursOnce(Touch(other), token, j);
  }

  /** A part of the command that does not contain the token ends before its last digit or begins behind its first. */
  lemma PlaceLeftOut(token: string, line: string, j: nat)
    requires IsToken(token) && OccursAt(Touch(token), line, j) && !Contains(line, token)
    ensures j > 11 || j + |line| < 43
  {
    if j <= 11 && j + |line| >= 43 {
      var c := Touch(token);
      assert c[11..43] == token by { TouchIsTouch(token); }
      forall i | 0 <= i < 32 ensures line[11 - j..][i] == token[i] {
        OccursMeansEqualChars(c, line, j, 11 - j + i);
        assert c[11..43][i] == c[11 + i];
      }
      assert token == line[11 - j..][..32];
      assert OccursAt(line, token, 11 - j);
    }
  }

  const WATCHDOG: string := "optee_example_watchdog"

  /** The second process of a refresh command is named in every refresh command, whatever its token. */
  lemma WatchdogMatchesExactly(command: string)
    requires IsPing(command) || IsTouch(command)
    ensures Contains(command, WATCHDOG) <==> IsTouch(command)
  {
    if IsTouch(command) {
      assert command[44..] == command[43..][1..] == WATCHDOG;
      assert OccursAt(command, WATCHDOG, 44);
    } else if Contains(command, WATCHDOG) {
      var j :| 0 <= j <= |command| && OccursAt(command, WATCHDOG, j);
      OccursMeansEqualChars(command, WATCHDOG, j, 0);
      OccursMeansEqualChars(command, WATCHDOG, j, 1);
      NoLetterO(command, j);
    }
  }

  lemma NoLetterO(command: string, i: nat)
    requires IsPing(command) && i < |command|
    ensures command[i] != 'o'
  {
    if i >= 3 {
      assert command[i] == command[3..][i - 3];
    } else {
      assert command[i] == PING[i];
    }
  }
}

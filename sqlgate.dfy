/**
 * The post-processing that `_get_sql_from_llm` applies to the model's reply before the
 * statement reaches the executor: strip, drop code fences, strip again, and substitute a
 * fixed sentinel statement unless the text starts with `select` in any letter case.
 */
module SqlGate {
  import opened PyStr

  /** "SELECT 'Error: Invalid SQL generated' as Error;", written in pieces the verifier can index. */
  const Sentinel: string := "SELECT" + " 'Error: " + "Invalid SQL" + " generated'" + " as Error;"
  const SqlFence: string := "```sql"
  const Fence: string := "```"

  /** `sql.lower().startswith("select")` */
  predicate IsSelect(s: string) {
    StartsWith(Lower(s), "select")
  }

  /** Lines 83-84: the reply with its whitespace and fence markers removed. */
  function Clean(reply: string): string {
    Strip(RemoveAll(RemoveAll(Strip(reply), SqlFence), Fence))
  }

  /** Lines 83-88: the statement handed to the executor. */
  function PostProcess(reply: string): (sql: string)
    ensures IsSelect(sql)
    ensures sql == Sentinel || sql == Clean(reply)
    ensures Stripped(sql)
    ensures !Contains(sql, Fence)
  {
    SentinelIsSelect();
    CleanHasNoFence(reply);
    var c := Clean(reply);
    if IsSelect(c) then c else Sentinel
  }

  /** The sentinel is itself a SELECT statement, so it passes the gate and is executed. */
  lemma SentinelIsSelect()
    ensures IsSelect(Sentinel)
    ensures Stripped(Sentinel)
    ensures !Contains(Sentinel, Fence)
  {
    assert Lower(Sentinel)[..6] == Lower(Sentinel[..6]);
    assert Sentinel[..6] == "SELECT";
    assert Lower("SELECT") == "select";
    SentinelHasNoBacktick();
  }

  lemma SentinelHasNoBacktick()
    ensures !Contains(Sentinel, Fence)
  {
    assert forall m :: 0 <= m < |Sentinel| ==> Sentinel[m] != '`';
    forall k | OccursAt(Sentinel, Fence, k) ensures false {
      FenceAt(Sentinel, k);
    }
    ContainsIff(Sentinel, Fence);
  }

  /** Where "```" occurs: three backticks in a row. */
  lemma FenceAt(s: string, k: int)
    ensures OccursAt(s, Fence, k) <==>
      0 <= k && k + 3 <= |s| && s[k] == '`' && s[k + 1] == '`' && s[k + 2] == '`'
  {
    if 0 <= k && k + 3 <= |s| && s[k] == '`' && s[k + 1] == '`' && s[k + 2] == '`' {
      assert s[k..k + 3] == Fence;
    }
  }

  /** A substring of a fence-free string is fence-free. */
  lemma SliceHasNoFence(s: string, i: nat, j: nat)
    requires i <= j <= |s|
    requires !Contains(s, Fence)
    ensures !Contains(s[i..j], Fence)
  {
    ContainsIff(s, Fence);
    ContainsIff(s[i..j], Fence);
    forall k | OccursAt(s[i..j], Fence, k) ensures false {
      FenceAt(s[i..j], k);
      FenceAt(s, i + k);
    }
  }

  /** `replace("```", "")` leaves no "```" behind: it never glues a new one together. */
  lemma {:induction false} RemoveAllFenceFree(s: string)
    ensures !Contains(RemoveAll(s, Fence), Fence)
    decreases |s|
  {
    match IndexOf(s, Fence) {
      case None =>
      case Some(i) =>
        var rest := s[i + 3..];
        RemoveAllFenceFree(rest);
        var tail := RemoveAll(rest, Fence);
        assert RemoveAll(s, Fence) == s[..i] + tail;
        JoinFenceFree(s, i, tail);
    }
  }

  /** The text before the first "```", followed by a fence-free text, is fence-free. */
  lemma JoinFenceFree(s: string, i: nat, tail: string)
    requires IndexOf(s, Fence).Some? && IndexOf(s, Fence).value == i
    requires !Contains(tail, Fence)
    ensures !Contains(s[..i] + tail, Fence)
  {
    var r := s[..i] + tail;
    ContainsIff(tail, Fence);
    ContainsIff(r, Fence);
    forall k | OccursAt(r, Fence, k) ensures false {
      FenceAt(r, k);
      FenceAt(s, i);
      if k + 3 <= i {
        FenceAt(s, k);
      } else if k >= i {
        FenceAt(tail, k - i);
      } else {
        // the fence would reach back into the text before i, whose last character is then a
        // backtick, making s[i-1..i+2] an earlier occurrence than i
        assert s[i - 1] == r[i - 1];
        FenceAt(s, i - 1);
      }
    }
  }

  lemma CleanHasNoFence(reply: string)
    ensures !Contains(Clean(reply), Fence)
  {
    var t := RemoveAll(RemoveAll(Strip(reply), SqlFence), Fence);
    RemoveAllFenceFree(RemoveAll(Strip(reply), SqlFence));
    var i, j := StripBounds(t);
    SliceHasNoFence(t, i, j);
  }

  /** The statement is the cleaned reply exactly when the cleaned reply starts with `select`. */
  lemma GateKeepsExactlySelects(reply: string)
    ensures PostProcess(reply) == Clean(reply) <==> IsSelect(Clean(reply))
    ensures !IsSelect(Clean(reply)) ==> PostProcess(reply) == Sentinel
  {
  }

  /** A reply that is a write (or anything not starting with `select`) never reaches the executor. */
  lemma WritesAreReplaced(reply: string, keyword: string)
    requires keyword in ["insert", "update", "delete", "drop"]
    requires StartsWith(Lower(Clean(reply)), keyword)
    ensures PostProcess(reply) == Sentinel
  {
    NotBothPrefixes(Lower(Clean(reply)), keyword);
  }

  lemma NotBothPrefixes(l: string, keyword: string)
    requires keyword in ["insert", "update", "delete", "drop"]
    requires StartsWith(l, keyword)
    ensures !StartsWith(l, "select")
  {
    assert l[0] == keyword[0];
  }

  /** A string without "```" has no "```sql" either. */
  lemma NoFenceNoSqlFence(s: string)
    requires !Contains(s, Fence)
    ensures !Contains(s, SqlFence)
  {
    if Contains(s, SqlFence) {
      var k := IndexOf(s, SqlFence).value;
      assert s[k..k + 3] == s[k..k + 6][..3];
      assert OccursAt(s, Fence, k);
      ContainsIff(s, Fence);
    }
  }

  /** Cleaning a stripped string without fences leaves it as it is. */
  lemma CleanFixesFenceFree(s: string)
    requires Stripped(s) && !Contains(s, Fence)
    ensures Clean(s) == s
  {
    StripStripped(s);
    NoFenceNoSqlFence(s);
  }

  /** Post-processing its own output changes nothing. */
  lemma PostProcessIdempotent(reply: string)
    ensures PostProcess(PostProcess(reply)) == PostProcess(reply)
  {
    CleanFixesFenceFree(PostProcess(reply));
  }
}

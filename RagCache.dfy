/** The commentary cache of `rag_commentary_from_vectorstore`: a module-level dictionary from a
    key built out of the ticker and the displayed indicators to `(timestamp, msg, summary)`,
    whose entries are served for ten minutes before the commentary service is asked again. */
module RagCache {
  import opened Wrappers
  import opened PyStr
  import opened RagParse

  /** `_RAG_TTL_SEC = 60 * 10`. */
  const TtlSeconds: real := 600.0

  /** One cached commentary: when it was fetched, and the parsed pair. */
  datatype Entry = Entry(stamp: real, msg: string, summary: string)

  /** The entries of the result dictionary that the cache key and the prompt read, as the
      dashboard displays them (numbers already rendered, or "N/A"). */
  datatype Shown = Shown(price: string, change: string, rsi: string, pe: string, score: int, status: string)

  /** The part of the key after the ticker: `f"{score}:{rsi}:{pe}:{change}"`. */
  function KeyTail(shown: Shown): string {
    IntToString(shown.score) + ":" + shown.rsi + ":" + shown.pe + ":" + shown.change
  }

  /** The indicator fields of the key, when none of them holds a colon (the rendered score
      never does). */
  predicate FieldsColonFree(shown: Shown) {
    ':' !in shown.rsi && ':' !in shown.pe && ':' !in shown.change
  }

  /** All fields of the key, the ticker included, when none of them holds a colon. */
  predicate ColonFree(ticker: string, shown: Shown) {
    ':' !in ticker && FieldsColonFree(shown)
  }

  /** `f"{ticker}:{score}:{rsi}:{pe}:{change}"`. Whatever the ticker holds, the last four
      colon-separated pieces of the key are the score, the RSI, the P/E and the change,
      provided those hold no colon. */
  function CacheKey(ticker: string, shown: Shown): (k: string)
    ensures FieldsColonFree(shown) ==>
              SplitOn(k, ':') == SplitOn(ticker, ':') + [IntToString(shown.score), shown.rsi, shown.pe, shown.change]
  {
    TailFields(shown);
    SplitOnAppend(ticker, ':', KeyTail(shown));
    ticker + ":" + KeyTail(shown)
  }

  /** Colon-free fields joined by colons split back into those fields. */
  lemma SplitTwo(d: string, e: string)
    requires ':' !in d && ':' !in e
    ensures SplitOn(d + [':'] + e, ':') == [d, e]
  {
    SplitOnOne(e, ':');
    SplitOnCons(d, ':', e);
  }

  lemma SplitThree(c: string, d: string, e: string)
    requires ':' !in c && ':' !in d && ':' !in e
    ensures SplitOn(c + [':'] + (d + [':'] + e), ':') == [c, d, e]
  {
    SplitTwo(d, e);
    SplitOnCons(c, ':', d + [':'] + e);
  }

  lemma SplitFour(b: string, c: string, d: string, e: string)
    requires ':' !in b && ':' !in c && ':' !in d && ':' !in e
    ensures SplitOn(b + [':'] + (c + [':'] + (d + [':'] + e)), ':') == [b, c, d, e]
  {
    SplitThree(c, d, e);
    SplitOnCons(b, ':', c + [':'] + (d + [':'] + e));
  }

  lemma JoinFour(b: string, c: string, d: string, e: string)
    ensures b + ":" + c + ":" + d + ":" + e == b + [':'] + (c + [':'] + (d + [':'] + e))
  {
  }

  /** The tail of the key splits back into the score and the three indicator fields. */
  lemma TailFields(shown: Shown)
    ensures FieldsColonFree(shown) ==>
              SplitOn(KeyTail(shown), ':') == [IntToString(shown.score), shown.rsi, shown.pe, shown.change]
  {
    if FieldsColonFree(shown) {
      var score := IntToString(shown.score);
      assert ':' !in score;
      JoinFour(score, shown.rsi, shown.pe, shown.change);
      SplitFour(score, shown.rsi, shown.pe, shown.change);
    }
  }

  /** A key whose fields hold no colon splits back at its colons into ticker, score, RSI,
      P/E and change. */
  lemma CacheKeyFields(ticker: string, shown: Shown)
    requires ColonFree(ticker, shown)
    ensures SplitOn(CacheKey(ticker, shown), ':')
            == [ticker, IntToString(shown.score), shown.rsi, shown.pe, shown.change]
  {
    SplitOnOne(ticker, ':');
  }

  /** Two requests whose indicator fields hold no colon share a cache entry only when the
      ticker, the score, the RSI, the P/E and the change shown are all the same. */
  lemma CacheKeyInjective(t1: string, s1: Shown, t2: string, s2: Shown)
    requires FieldsColonFree(s1) && FieldsColonFree(s2)
    requires CacheKey(t1, s1) == CacheKey(t2, s2)
    ensures t1 == t2 && s1.score == s2.score && s1.rsi == s2.rsi && s1.pe == s2.pe
    ensures s1.change == s2.change
  {
    var f1 := [IntToString(s1.score), s1.rsi, s1.pe, s1.change];
    var f2 := [IntToString(s2.score), s2.rsi, s2.pe, s2.change];
    assert f1 == f2 by {
      SameLength(SplitOn(t1, ':'), f1, SplitOn(t2, ':'), f2);
    }
    IntToStringInjective(s1.score, s2.score);
    assert t1 == t2 by {
      var tail := ":" + KeyTail(s1);
      assert KeyTail(s1) == KeyTail(s2);
      KeyShape(t1, s1);
      KeyShape(t2, s2);
      SameSuffix(t1, t2, tail);
    }
  }

  /** The key is the ticker followed by a colon and the tail. */
  lemma KeyShape(ticker: string, shown: Shown)
    ensures CacheKey(ticker, shown) == ticker + (":" + KeyTail(shown))
  {
  }

  /** Two equal sequences that end in blocks of the same length end in the same block. */
  lemma SameLength<T>(a1: seq<T>, f1: seq<T>, a2: seq<T>, f2: seq<T>)
    requires |f1| == |f2| && a1 + f1 == a2 + f2
    ensures f1 == f2
  {
    var p := a1 + f1;
    assert f1 == p[|p| - |f1|..];
    assert f2 == (a2 + f2)[|p| - |f2|..];
  }

  /** Two texts that give the same result followed by the same suffix are equal. */
  lemma SameSuffix(t1: string, t2: string, tail: string)
    requires t1 + tail == t2 + tail
    ensures t1 == t2
  {
    assert t1 == (t1 + tail)[..|t1|];
    assert t2 == (t2 + tail)[..|t2|];
  }

  /** `if not vs_id`: an unset or empty vector-store id switches the commentary off. */
  predicate Configured(vectorStoreId: Option<string>) {
    vectorStoreId.Some? && vectorStoreId.value != ""
  }

  /** A stripped reply is never whitespace-only, so it can always be parsed. */
  lemma StrippedReplyParses(reply: string)
    ensures !WhitespaceOnly(Strip(reply))
  {
    StripIdempotent(reply);
  }

  class CommentaryCache {
    /** `_RAG_CACHE`. */
    var entries: map<string, Entry>

    constructor ()
      ensures entries == map[]
    {
      entries := map[];
    }

    /** An entry is served while it is younger than the TTL (`now - ts < _RAG_TTL_SEC`). */
    predicate FreshAt(key: string, now: real)
      reads this
    {
      key in entries && now - entries[key].stamp < TtlSeconds
    }

    /** The lookup of lines 242-245: the stored pair of a fresh entry, `None` otherwise. */
    method Lookup(key: string, now: real) returns (hit: Option<Commentary>)
      ensures hit.Some? <==> FreshAt(key, now)
      ensures hit.Some? ==> hit.value == Commentary(entries[key].msg, entries[key].summary)
    {
      hit := None;
      if key in entries {
        var e := entries[key];
        if now - e.stamp < TtlSeconds {
          hit := Some(Commentary(e.msg, e.summary));
        }
      }
    }

    /** `rag_commentary_from_vectorstore(ticker, result)` at time `now`. `ask` stands for the
        commentary service: given the vector-store id, the ticker and the displayed result it
        returns the reply text (`resp.output_text or ""`). It is consulted only on a miss. */
    method RagCommentary(vectorStoreId: Option<string>, ticker: string, shown: Shown, now: real,
                         ask: (string, string, Shown) -> string)
      returns (c: Commentary)
      modifies this
      ensures !Configured(vectorStoreId) ==> c == Commentary("", "") && entries == old(entries)
      ensures Configured(vectorStoreId) && old(FreshAt(CacheKey(ticker, shown), now)) ==>
                c == Commentary(old(entries)[CacheKey(ticker, shown)].msg,
                                old(entries)[CacheKey(ticker, shown)].summary)
                && entries == old(entries)
      ensures Configured(vectorStoreId) && !old(FreshAt(CacheKey(ticker, shown), now)) ==>
                c == ParsedBlocks(Strip(ask(vectorStoreId.value, ticker, shown)))
                && entries == old(entries)[CacheKey(ticker, shown) := Entry(now, c.msg, c.summary)]
    {
      if !Configured(vectorStoreId) {
        return Commentary("", "");
      }

      var key := CacheKey(ticker, shown);
      var hit := Lookup(key, now);
      if hit.Some? {
        return hit.value;
      }

      var text := Strip(ask(vectorStoreId.value, ticker, shown));
      StrippedReplyParses(ask(vectorStoreId.value, ticker, shown));
      var msg, summary := ParseRagBlocks(text);

      entries := entries[key := Entry(now, msg, summary)];
      c := Commentary(msg, summary);
    }
  }
}

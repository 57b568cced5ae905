/** The episode store: a log of recorded episodes kept newest first. */
module Episodes {
  import opened Json
  import opened Collections

  /** How many episodes `getRecentEpisodes` returns when no limit is given. */
  const DEFAULT_RECENT := 5

  /** The record `addEpisode` stores: a generated id and the current time,
      both overridden by the caller's own `id` and `timestamp`. */
  function Stamped(episode: Obj, id: string, now: string): (r: Obj)
    ensures r.Keys == episode.Keys + {"id", "timestamp"}
    ensures Get(r, "id") == (if "id" in episode then episode["id"] else Str(id))
    ensures Get(r, "timestamp") == (if "timestamp" in episode then episode["timestamp"] else Str(now))
    ensures forall k :: k in episode ==> r[k] == episode[k]
  {
    Merge(map["id" := Str(id), "timestamp" := Str(now)], episode)
  }

  /** No two stored episodes share an id. */
  predicate DistinctIds(episodes: seq<Obj>)
  {
    forall i, j :: 0 <= i < j < |episodes| ==> Get(episodes[i], "id") != Get(episodes[j], "id")
  }

  /** The list after adding the already stamped records `added`, one call
      after another, to `episodes`. */
  function AddAll(episodes: seq<Obj>, added: seq<Obj>): (r: seq<Obj>)
    ensures |r| == |episodes| + |added|
    ensures r[|added|..] == episodes
    decreases added
  {
    if added == [] then episodes else AddAll([added[0]] + episodes, added[1..])
  }

  /** A run of additions leaves the list in reverse insertion order, in
      front of what was there before. */
  lemma {:induction false} AddAllReversed(episodes: seq<Obj>, added: seq<Obj>)
    ensures AddAll(episodes, added) == Reversed(added) + episodes
    decreases added
  {
    if added != [] {
      AddAllReversed([added[0]] + episodes, added[1..]);
      assert added == [added[0]] + added[1..];
      calc {
        Reversed(added) + episodes;
        Reversed(added[1..]) + [added[0]] + episodes;
        Reversed(added[1..]) + ([added[0]] + episodes);
      }
    }
  }

  /** Adding an episode with a fresh generated id, and no id of its own,
      keeps the ids distinct. */
  lemma StampedKeepsIdsDistinct(episodes: seq<Obj>, episode: Obj, id: string, now: string)
    requires DistinctIds(episodes)
    requires "id" !in episode
    requires forall e :: e in episodes ==> Get(e, "id") != Str(id)
    ensures DistinctIds([Stamped(episode, id, now)] + episodes)
  {
    var s := [Stamped(episode, id, now)] + episodes;
    forall i, j | 0 <= i < j < |s|
      ensures Get(s[i], "id") != Get(s[j], "id")
    {
      if i == 0 {
        assert s[j] == episodes[j - 1] && s[j] in episodes;
      } else {
        assert s[i] == episodes[i - 1] && s[j] == episodes[j - 1];
      }
    }
  }

  class EpisodeStore {
    var episodes: seq<Obj>

    /** The store starts from the list loaded from storage (an empty list
        when nothing was stored or it could not be read). */
    constructor (loaded: seq<Obj>)
      ensures episodes == loaded
    {
      episodes := loaded;
    }

    method AddEpisode(episode: Obj, id: string, now: string)
      modifies this
      ensures episodes == [Stamped(episode, id, now)] + old(episodes)
      ensures episodes == AddAll(old(episodes), [Stamped(episode, id, now)])
    {
      episodes := [Stamped(episode, id, now)] + episodes;
    }

    method UpdateEpisode(id: Value, updatedFields: Obj)
      modifies this
      ensures |episodes| == |old(episodes)|
      ensures match FindIndex(old(episodes), IdIs(id))
              case None => episodes == old(episodes)
              case Some(i) => episodes == old(episodes)[i := Merge(old(episodes)[i], updatedFields)]
    {
      var index := FindIndex(episodes, IdIs(id));
      if index.Some? {
        var i := index.value;
        episodes := episodes[i := Merge(episodes[i], updatedFields)];
      }
    }

    /** `episodes.slice(0, limit)`, with `limit` defaulting to 5. */
    function GetRecentEpisodes(limit: Option<int>): (r: seq<Obj>)
      reads this
      ensures |r| <= |episodes| && r == episodes[..|r|]
      ensures 0 <= limit.GetOr(DEFAULT_RECENT) ==> |r| == Min(limit.GetOr(DEFAULT_RECENT), |episodes|)
      ensures limit.GetOr(DEFAULT_RECENT) < 0 ==> |r| == Max(|episodes| + limit.GetOr(DEFAULT_RECENT), 0)
    {
      episodes[..SliceEnd(|episodes|, limit.GetOr(DEFAULT_RECENT))]
    }
  }
}

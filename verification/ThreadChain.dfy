/** The reply chain that `ThreadBuilder::send` of `src/thread.rs` publishes. */
module ThreadChain {
  import opened Graphemes
  import opened Numbering
  import opened Wrappers

  /** A strong reference to a record: its URI and content id. */
  datatype Ref = Ref(uri: string, cid: string)

  datatype ReplyRef = ReplyRef(parent: Ref, root: Ref)

  datatype Record = Record(text: Text, reply: Option<ReplyRef>)

  datatype Post = Post(record: Record, ref: Ref)

  /** The bot's repository. The server picks the reference of each new record, and any
      request may fail. */
  class Repo {
    var posts: seq<Post>
    /** How many requests were refused. */
    ghost var refused: nat

    method PostRecord(record: Record) returns (out: Result<Ref>)
      modifies this
      ensures out.Ok? ==> posts == old(posts) + [Post(record, out.value)] && refused == old(refused)
      ensures out.Err? ==> posts == old(posts) && refused == old(refused) + 1
    {
      var accepted: bool := *;
      var ref: Ref := *;
      if accepted {
        posts := posts + [Post(record, ref)];
        return Ok(ref);
      }
      refused := refused + 1;
      return Err;
    }
  }

  /** Post `k` answers post `k - 1`, the first answers `reply`, and all share one root. */
  ghost predicate Chained(reply: Option<ReplyRef>, posts: seq<Post>) {
    && (posts != [] ==> posts[0].record.reply == reply)
    && forall k :: 1 <= k < |posts| ==>
         posts[k].record.reply ==
         Some(ReplyRef(posts[k - 1].ref, if reply.Some? then reply.value.root else posts[0].ref))
  }

  /** `ThreadBuilder::send`: on success the whole plan is posted as one chain; a failure
      leaves a chained proper prefix of it, at the first request refused; nothing to say is an
      error that posts nothing. */
  method Send(repo: Repo, pieces: seq<Text>, reply: Option<ReplyRef>, numbered: bool)
    returns (sent: Result<seq<Ref>>)
    modifies repo
    ensures old(repo.posts) <= repo.posts
    ensures var plan, made := Plan(pieces, numbered, MAX_POST_GRAPHEMES), repo.posts[|old(repo.posts)|..];
            && Chained(reply, made)
            && |made| <= |plan|
            && (forall k :: 0 <= k < |made| ==> made[k].record.text == plan[k])
            && (sent.Ok? <==> plan != [] && |made| == |plan|)
            && repo.refused == old(repo.refused) + (if sent.Ok? || plan == [] then 0 else 1)
            && (sent.Ok? ==>
                  |sent.value| == |made| && forall k :: 0 <= k < |made| ==> sent.value[k] == made[k].ref)
  {
    var segments := PlanSegments(pieces, numbered, MAX_POST_GRAPHEMES);
    if segments == [] {
      return Err;
    }
    var outputs: seq<Ref> := [];
    var root := if reply.Some? then Some(reply.value.root) else None;
    var parent := if reply.Some? then Some(reply.value.parent) else None;
    ghost var made: seq<Post> := [];
    for k := 0 to |segments|
      invariant repo.refused == old(repo.refused)
      invariant repo.posts == old(repo.posts) + made && |made| == |outputs| == k
      invariant Chained(reply, made) && root == RootOf(reply, made) && parent == ParentOf(reply, made)
      invariant forall i :: 0 <= i < k ==> made[i].record.text == segments[i] && outputs[i] == made[i].ref
    {
      var replyRef := if root.Some? && parent.Some? then Some(ReplyRef(parent.value, root.value)) else None;
      var out := repo.PostRecord(Record(segments[k], replyRef));
      if out.Err? {
        assert repo.posts[|old(repo.posts)|..] == made;
        return Err;
      }
      ghost var post := Post(Record(segments[k], replyRef), out.value);
      ChainGrows(reply, made, post);
      made := made + [post];
      if root.None? {
        root := Some(out.value);
      }
      parent := Some(out.value);
      outputs := outputs + [out.value];
    }
    assert repo.posts[|old(repo.posts)|..] == made;
    return Ok(outputs);
  }

  /** What the next post gives as its root and answers. */
  function RootOf(reply: Option<ReplyRef>, made: seq<Post>): Option<Ref> {
    if reply.Some? then Some(reply.value.root) else if made == [] then None else Some(made[0].ref)
  }

  function ParentOf(reply: Option<ReplyRef>, made: seq<Post>): Option<Ref> {
    if made != [] then Some(made[|made| - 1].ref) else if reply.Some? then Some(reply.value.parent) else None
  }

  lemma ChainGrows(reply: Option<ReplyRef>, made: seq<Post>, post: Post)
    requires Chained(reply, made)
    requires var root, parent := RootOf(reply, made), ParentOf(reply, made);
             post.record.reply ==
               if root.Some? && parent.Some? then Some(ReplyRef(parent.value, root.value)) else None
    ensures Chained(reply, made + [post])
    ensures ParentOf(reply, made + [post]) == Some(post.ref)
    ensures RootOf(reply, made + [post]) == if RootOf(reply, made).None? then Some(post.ref) else RootOf(reply, made)
  {
  }
}

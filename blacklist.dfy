/**
 * The blacklist: restriction sets stored at ID paths (guild, then channel,
 * then user or role). The backing tree is a map from each path to the set
 * stored exactly there.
 */
module Blacklist {
  import opened Restrictions

  type Id = string
  type Path = seq<Id>
  type Tree = map<Path, set<Restriction>>

  /** A channel knows the guild it belongs to (`channel.getGuild()`). */
  datatype Channel = Channel(guild: Id, id: Id)

  /** The six scopes the public `getRestrictions`, `addRestriction` and
      `removeRestriction` overloads take. */
  datatype Scope =
    | InGuild(guild: Id)
    | InChannel(channel: Channel)
    | UserInChannel(user: Id, channel: Channel)
    | UserInGuild(user: Id, guild: Id)
    | RoleInChannel(role: Id, channel: Channel)
    | RoleInGuild(role: Id, guild: Id)

  /** The path each overload passes to `get`, `add` or `remove`. */
  function ScopePath(s: Scope): (p: Path)
    ensures |p| >= 1
    ensures s.InGuild? <==> |p| == 1
    ensures |p| <= 3
  {
    match s
    case InGuild(g) => [g]
    case InChannel(c) => [c.guild, c.id]
    case UserInChannel(u, c) => [c.guild, c.id, u]
    case UserInGuild(u, g) => [g, u]
    case RoleInChannel(r, c) => [c.guild, c.id, r]
    case RoleInGuild(r, g) => [g, r]
  }

  /** The set stored exactly at `path`, or the empty set. */
  function Lookup(t: Tree, path: Path): (s: set<Restriction>)
  {
    if path in t then t[path] else {}
  }

  /** The tree after `add`: the set at `path` (created if absent) gains `r`. */
  function Inserted(t: Tree, r: Restriction, path: Path): (t': Tree)
  {
    t[path := Lookup(t, path) + {r}]
  }

  /** The tree after `remove`: the set at `path`, if there is one, loses `r`;
      an emptied set stays, and an absent path is not created. */
  function Removed(t: Tree, r: Restriction, path: Path): (t': Tree)
  {
    if path in t then t[path := t[path] - {r}] else t
  }

  /** The paths `getAllRestrictions` reads for a user in a channel, given the
      user's roles in the channel's guild. */
  function ApplicablePaths(user: Id, channel: Channel, roles: seq<Id>): (paths: set<Path>)
  {
    var g, c := channel.guild, channel.id;
    {[g, c, user], [g, c], [g, user], [g]}
      + (set r | r in roles :: [g, c, r])
      + (set r | r in roles :: [g, r])
  }

  /** Every restriction stored at one of `paths`. */
  ghost function Collected(t: Tree, paths: set<Path>): (s: set<Restriction>)
  {
    set p, x | p in paths && p in t && x in t[p] :: x
  }

  class Blacklist {
    var tree: Tree

    /** The blacklist over the tree the database backend loaded. */
    constructor (loaded: Tree)
      ensures tree == loaded
    {
      tree := loaded;
    }

    /** `get`: a copy of the set at exactly `path`, empty if there is none. */
    method Get(path: Path) returns (s: set<Restriction>)
      ensures s == Lookup(tree, path)
    {
      if path in tree {
        s := tree[path];
      } else {
        s := {};
      }
    }

    /** `getRestrictions`: the set stored for one scope. */
    method GetRestrictions(scope: Scope) returns (s: set<Restriction>)
      ensures s == Lookup(tree, ScopePath(scope))
    {
      s := Get(ScopePath(scope));
    }

    /** `getAllRestrictions`: the user's restrictions in the channel, the
        channel's, the user's in the guild and the guild's, then for each of
        the user's roles the role's in the channel and in the guild. */
    method GetAllRestrictions(user: Id, channel: Channel, roles: seq<Id>) returns (s: set<Restriction>)
      ensures s == Collected(tree, ApplicablePaths(user, channel, roles))
    {
      var g, c := channel.guild, channel.id;
      s := Get([g, c, user]);
      ghost var paths: set<Path> := {[g, c, user]};
      assert s == Collected(tree, paths) by { CollectedAdd(tree, {}, [g, c, user]); }
      var more := Get([g, c]);
      assert s + more == Collected(tree, paths + {[g, c]}) by { CollectedAdd(tree, paths, [g, c]); }
      s, paths := s + more, paths + {[g, c]};
      more := Get([g, user]);
      assert s + more == Collected(tree, paths + {[g, user]}) by { CollectedAdd(tree, paths, [g, user]); }
      s, paths := s + more, paths + {[g, user]};
      more := Get([g]);
      assert s + more == Collected(tree, paths + {[g]}) by { CollectedAdd(tree, paths, [g]); }
      s, paths := s + more, paths + {[g]};
      ghost var base := paths;
      for i := 0 to |roles|
        invariant s == Collected(tree, base + RolePaths(channel, roles[..i]))
      {
        var inChannel := Get([g, c, roles[i]]);
        s := s + inChannel;
        var inGuild := Get([g, roles[i]]);
        s := s + inGuild;
        CollectedRoleStep(tree, base, channel, roles, i);
      }
      assert roles[..|roles|] == roles;
      RolePathsAll(channel, roles);
    }

    /** `add`: puts `r` in the set at `path`, creating the set if there is
        none; reports whether `r` was not there before. */
    method Add(r: Restriction, path: Path) returns (added: bool)
      modifies this
      ensures added <==> r !in Lookup(old(tree), path)
      ensures tree == Inserted(old(tree), r, path)
    {
      if path !in tree {
        tree := tree[path := {}];
      }
      added := r !in tree[path];
      tree := tree[path := tree[path] + {r}];
    }

    /** `remove`: takes `r` out of the set at `path`; reports whether it was
        there. An absent path is left absent. */
    method Remove(r: Restriction, path: Path) returns (removed: bool)
      modifies this
      ensures removed <==> path in old(tree) && r in old(tree)[path]
      ensures tree == Removed(old(tree), r, path)
    {
      if path !in tree {
        return false;
      }
      removed := r in tree[path];
      tree := tree[path := tree[path] - {r}];
    }

    /** `addRestriction`: `add` at the scope's path. */
    method AddRestriction(r: Restriction, scope: Scope) returns (added: bool)
      modifies this
      ensures added <==> r !in Lookup(old(tree), ScopePath(scope))
      ensures tree == Inserted(old(tree), r, ScopePath(scope))
    {
      added := Add(r, ScopePath(scope));
    }

    /** `removeRestriction`: `remove` at the scope's path. */
    method RemoveRestriction(r: Restriction, scope: Scope) returns (removed: bool)
      modifies this
      ensures removed <==> r in Lookup(old(tree), ScopePath(scope))
      ensures tree == Removed(old(tree), r, ScopePath(scope))
    {
      removed := Remove(r, ScopePath(scope));
    }
  }

  // ---------------------------------------------------------------------------
  // Paths of the role loop
  // ---------------------------------------------------------------------------

  function RolePaths(channel: Channel, roles: seq<Id>): (paths: set<Path>)
  {
    if roles == [] then {}
    else
      var r := roles[|roles| - 1];
      RolePaths(channel, roles[..|roles| - 1]) + {[channel.guild, channel.id, r], [channel.guild, r]}
  }

  lemma RolePathsSnoc(channel: Channel, roles: seq<Id>, r: Id)
    ensures RolePaths(channel, roles + [r])
         == RolePaths(channel, roles) + {[channel.guild, channel.id, r], [channel.guild, r]}
  {
    assert (roles + [r])[..|roles|] == roles;
  }

  lemma {:induction false} RolePathsAll(channel: Channel, roles: seq<Id>)
    ensures RolePaths(channel, roles)
         == (set r | r in roles :: [channel.guild, channel.id, r]) + (set r | r in roles :: [channel.guild, r])
  {
    if roles != [] {
      var init := roles[..|roles| - 1];
      RolePathsAll(channel, init);
      assert roles == init + [roles[|roles| - 1]];
      assert forall r :: r in roles <==> r in init || r == roles[|roles| - 1];
    }
  }

  // ---------------------------------------------------------------------------
  // Properties of the store
  // ---------------------------------------------------------------------------

  /** Collecting over a union of path sets unions what is collected. */
  lemma CollectedUnion(t: Tree, a: set<Path>, b: set<Path>)
    ensures Collected(t, a + b) == Collected(t, a) + Collected(t, b)
  {
  }

  /** Collecting over one more path adds the set looked up there. */
  lemma CollectedAdd(t: Tree, paths: set<Path>, q: Path)
    ensures Collected(t, paths + {q}) == Collected(t, paths) + Lookup(t, q)
  {
    CollectedUnion(t, paths, {q});
    assert Collected(t, {q}) == Lookup(t, q);
  }

  /** One turn of the role loop: the role's paths in the channel and in the
      guild join the collected paths. */
  lemma CollectedRoleStep(t: Tree, base: set<Path>, channel: Channel, roles: seq<Id>, i: nat)
    requires i < |roles|
    ensures Collected(t, base + RolePaths(channel, roles[..i + 1]))
         == Collected(t, base + RolePaths(channel, roles[..i]))
            + Lookup(t, [channel.guild, channel.id, roles[i]]) + Lookup(t, [channel.guild, roles[i]])
  {
    var g, c, r := channel.guild, channel.id, roles[i];
    var before := base + RolePaths(channel, roles[..i]);
    assert roles[..i + 1] == roles[..i] + [r];
    RolePathsSnoc(channel, roles[..i], r);
    assert base + RolePaths(channel, roles[..i + 1]) == before + {[g, c, r]} + {[g, r]};
    CollectedAdd(t, before, [g, c, r]);
    CollectedAdd(t, before + {[g, c, r]}, [g, r]);
  }

  /** A restriction applies to a user in a channel exactly when it is stored
      at one of the six path shapes for that user, channel and a role. */
  lemma AppliesIff(t: Tree, user: Id, channel: Channel, roles: seq<Id>, x: Restriction)
    ensures var g, c := channel.guild, channel.id;
      x in Collected(t, ApplicablePaths(user, channel, roles)) <==>
        || x in Lookup(t, [g, c, user]) || x in Lookup(t, [g, c])
        || x in Lookup(t, [g, user]) || x in Lookup(t, [g])
        || exists r | r in roles :: x in Lookup(t, [g, c, r]) || x in Lookup(t, [g, r])
  {
    var g, c := channel.guild, channel.id;
    if exists r | r in roles :: x in Lookup(t, [g, c, r]) || x in Lookup(t, [g, r]) {
      var r :| r in roles && (x in Lookup(t, [g, c, r]) || x in Lookup(t, [g, r]));
      assert [g, c, r] in ApplicablePaths(user, channel, roles);
      assert [g, r] in ApplicablePaths(user, channel, roles);
    }
  }

  /** `add` puts the restriction at the path and touches no other path. */
  lemma InsertedEffect(t: Tree, r: Restriction, path: Path)
    ensures path in Inserted(t, r, path)
    ensures Lookup(Inserted(t, r, path), path) == Lookup(t, path) + {r}
    ensures forall q :: q != path ==> (q in Inserted(t, r, path) <==> q in t)
    ensures forall q :: q != path ==> Lookup(Inserted(t, r, path), q) == Lookup(t, q)
  {
  }

  /** `remove` takes the restriction out of the path, touches no other path,
      and never creates a path. */
  lemma RemovedEffect(t: Tree, r: Restriction, path: Path)
    ensures r !in Lookup(Removed(t, r, path), path)
    ensures Lookup(Removed(t, r, path), path) == Lookup(t, path) - {r}
    ensures Removed(t, r, path).Keys == t.Keys
    ensures forall q :: q != path ==> Lookup(Removed(t, r, path), q) == Lookup(t, q)
  {
  }

  /** Adding twice: the second add finds the restriction present (so reports
      false) and changes nothing. Removing twice: the second remove finds it
      absent (so reports false) and changes nothing. */
  lemma AddRemoveTwice(t: Tree, r: Restriction, path: Path)
    ensures r in Lookup(Inserted(t, r, path), path)
    ensures Inserted(Inserted(t, r, path), r, path) == Inserted(t, r, path)
    ensures r !in Lookup(Removed(t, r, path), path)
    ensures Removed(Removed(t, r, path), r, path) == Removed(t, r, path)
  {
    if path in t {
      assert t[path] - {r} - {r} == t[path] - {r};
    }
  }

  /** Removing what was just added restores every lookup; the path itself
      stays in the tree with an empty set when the add created it. */
  lemma RemoveUndoesAdd(t: Tree, r: Restriction, path: Path)
    requires r !in Lookup(t, path)
    ensures forall q :: Lookup(Removed(Inserted(t, r, path), r, path), q) == Lookup(t, q)
    ensures path in t ==> Removed(Inserted(t, r, path), r, path) == t
    ensures path !in t ==> Removed(Inserted(t, r, path), r, path) == t[path := {}]
  {
    if path in t {
      assert t[path] + {r} - {r} == t[path];
    }
  }
}

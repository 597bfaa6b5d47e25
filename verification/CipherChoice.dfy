/** The choice of a cipher suite with equal-preference groups (ssl3_choose_cipher). */
module CipherChoice {
  import opened Bits
  import opened Bytes

  /** A cipher suite: the versions it is for, and its key exchange and authentication as bit masks. */
  datatype Cipher = Cipher(value: nat, minVersion: nat, maxVersion: nat, mkey: nat, auth: nat)

  /** What the server supports at this point of the handshake. */
  datatype Support = Support(version: nat, maskK: nat, maskA: nat)

  predicate Usable(c: Cipher, s: Support)
  {
    c.minVersion <= s.version <= c.maxVersion && BitAnd(c.mkey, s.maskK) != 0 && BitAnd(c.auth, s.maskA) != 0
  }

  /** Two masks have a bit in common. */
  ghost predicate Shares(a: nat, b: nat)
  {
    exists i: nat :: Bit(a, i) && Bit(b, i)
  }

  /** The least bit of a number other than zero. */
  lemma {:induction false} LeastBit(w: nat) returns (i: nat)
    requires w != 0
    ensures Bit(w, i)
  {
    if w % 2 == 1 {
      i := 0;
    } else {
      i := LeastBit(w / 2);
      i := i + 1;
    }
  }

  lemma {:induction false} AndShares(a: nat, b: nat)
    ensures BitAnd(a, b) != 0 <==> Shares(a, b)
  {
    if BitAnd(a, b) != 0 {
      var i := LeastBit(BitAnd(a, b));
      AndBit(a, b, i);
    } else if Shares(a, b) {
      var i: nat :| Bit(a, i) && Bit(b, i);
      AndBit(a, b, i);
      ZeroBit(i);
    }
  }

  /** A cipher suite is usable exactly in its versions, and where the masks share a key exchange and an
      authentication. */
  lemma {:induction false} UsableMeans(s: Support)
    ensures forall c: Cipher :: Usable(c, s) <==>
              && c.minVersion <= s.version && s.version <= c.maxVersion
              && Shares(c.mkey, s.maskK) && Shares(c.auth, s.maskA)
  {
    forall c: Cipher
      ensures Usable(c, s) <==>
              && c.minVersion <= s.version && s.version <= c.maxVersion
              && Shares(c.mkey, s.maskK) && Shares(c.auth, s.maskA)
    {
      AndShares(c.mkey, s.maskK);
      AndShares(c.auth, s.maskA);
    }
  }

  /** sk_SSL_CIPHER_find: the first place of a cipher in a list. */
  function Find(list: seq<Cipher>, c: Cipher): (r: Option<nat>)
    ensures r.None? ==> c !in list
    ensures r.Some? ==> r.value < |list| && list[r.value] == c && c !in list[..r.value]
  {
    if list == [] then None
    else if list[0] == c then Some(0)
    else match Find(list[1..], c)
      case None => None
      case Some(i) => Some(i + 1)
  }

  /** The number of the equal-preference group of entry i: a flag says that its entry shares a group with the next
      one. */
  function Group(flags: seq<bool>, i: nat): nat
    requires i <= |flags|
  {
    if i == 0 then 0 else Group(flags, i - 1) + if flags[i - 1] then 0 else 1
  }

  lemma {:induction false} GroupsGrow(flags: seq<bool>, i: nat, j: nat)
    requires i <= j <= |flags|
    ensures Group(flags, i) <= Group(flags, j)
    ensures i < j && !flags[i] ==> Group(flags, i) < Group(flags, j)
  {
    if i < j {
      GroupsGrow(flags, i, j - 1);
    }
  }

  /** The group of entry i has an end. That is so for every entry of a list whose last flag is clear, as it should
      be. */
  ghost predicate Ended(flags: seq<bool>, i: nat)
  {
    exists e :: i <= e < |flags| && !flags[e]
  }

  ghost predicate WellGrouped(flags: seq<bool>)
  {
    flags == [] || !flags[|flags| - 1]
  }

  lemma {:induction false} AllEnded(flags: seq<bool>)
    requires WellGrouped(flags)
    ensures forall i: nat :: i < |flags| ==> Ended(flags, i)
  {}

  /** An entry of the same group as the end of the list is in a group without end. */
  lemma {:induction false} NeverEnded(flags: seq<bool>, i: nat)
    requires i < |flags| && Group(flags, i) == Group(flags, |flags|)
    ensures !Ended(flags, i)
  {
    if Ended(flags, i) {
      var e :| i <= e < |flags| && !flags[e];
      GroupsGrow(flags, i, e);
      GroupsGrow(flags, e, |flags|);
    }
  }

  /** Entry i of prio can be chosen. */
  predicate Candidate(prio: seq<Cipher>, allow: seq<Cipher>, s: Support, i: nat)
  {
    i < |prio| && Usable(prio[i], s) && prio[i] in allow
  }

  /** i is a candidate of the first group that has one, and of those in its group the first in allow. */
  ghost predicate Best(prio: seq<Cipher>, flags: seq<bool>, allow: seq<Cipher>, s: Support, i: nat)
    requires |flags| == |prio|
  {
    && Candidate(prio, allow, s, i)
    && forall k: nat :: Candidate(prio, allow, s, k) ==>
         Group(flags, i) < Group(flags, k) ||
             (Group(flags, i) == Group(flags, k) && Place(allow, prio[i]) <= Place(allow, prio[k]))
  }

  function Place(list: seq<Cipher>, c: Cipher): nat
    requires c in list
  {
    Find(list, c).value
  }

  /** The loop of ssl3_choose_cipher. A list without groups is one whose flags are all false. A group without end is
      lost, whatever is in it. */
  method Choose(prio: seq<Cipher>, flags: seq<bool>, allow: seq<Cipher>, s: Support) returns (r: Option<Cipher>)
    requires |flags| == |prio|
    ensures r.None? <==> forall i: nat :: Candidate(prio, allow, s, i) ==> !Ended(flags, i)
    ensures r.Some? ==> exists i: nat :: Best(prio, flags, allow, s, i) && r.value == prio[i]
  {
    var groupMin := -1;
    ghost var best := 0;
    var i := 0;
    while i < |prio|
      invariant 0 <= i <= |prio| && groupMin < |allow|
      invariant groupMin < 0 ==> groupMin == -1 && forall k: nat :: k < i ==> !Candidate(prio, allow, s, k)
      invariant groupMin >= 0 ==>
                  && best < i && Candidate(prio, allow, s, best) && groupMin == Place(allow, prio[best]) && flags[i - 1]
                  && forall k: nat :: k < i && Candidate(prio, allow, s, k) ==>
                       Group(flags, k) == Group(flags, i) && groupMin <= Place(allow, prio[k])
    {
      var c := prio[i];
      var found := Find(allow, c);
      if Usable(c, s) && found.Some? {
        var cipherIndex := found.value;
        if flags[i] {
          if groupMin == -1 || groupMin > cipherIndex {
            groupMin := cipherIndex;
            best := i;
          }
        } else {
          if groupMin != -1 && groupMin < cipherIndex {
            cipherIndex := groupMin;
          } else {
            best := i;
          }
          IsBest(prio, flags, allow, s, best, i);
          assert Candidate(prio, allow, s, best) && Ended(flags, best);
          return Some(allow[cipherIndex]);
        }
      }
      if !flags[i] && groupMin != -1 {
        IsBest(prio, flags, allow, s, best, i);
        assert Candidate(prio, allow, s, best) && Ended(flags, best);
        return Some(allow[groupMin]);
      }
      i := i + 1;
    }
    forall k: nat | Candidate(prio, allow, s, k)
      ensures !Ended(flags, k)
    {
      NeverEnded(flags, k);
    }
    return None;
  }

  lemma {:induction false} IsBest(prio: seq<Cipher>, flags: seq<bool>, allow: seq<Cipher>, s: Support, best: nat,
                                  i: nat)
    requires |flags| == |prio| && best <= i < |prio| && !flags[i] && Candidate(prio, allow, s, best)
    requires forall k: nat :: k <= i && Candidate(prio, allow, s, k) ==>
               Group(flags, k) == Group(flags, i) && Place(allow, prio[best]) <= Place(allow, prio[k])
    ensures Best(prio, flags, allow, s, best)
  {
    forall k: nat | Candidate(prio, allow, s, k)
      ensures Group(flags, best) < Group(flags, k) ||
              (Group(flags, best) == Group(flags, k) && Place(allow, prio[best]) <= Place(allow, prio[k]))
    {
      if k > i {
        GroupsGrow(flags, i, k);
      }
    }
  }

  function NoGroups(n: nat): (r: seq<bool>)
    ensures |r| == n && forall i :: 0 <= i < n ==> !r[i]
  {
    seq(n, _ => false)
  }

  /** ssl3_choose_cipher. With server preference: of the first group of the server that has a cipher usable and
      shared, the one the client lists first. Without: the client's first that is usable and shared. None exactly
      when there is none, or none but in a last group that has no end. */
  method ChooseCipher(serverPreference: bool, server: seq<Cipher>, groups: seq<bool>, client: seq<Cipher>, s: Support)
    returns (r: Option<Cipher>)
    requires |groups| == |server|
    ensures !serverPreference || WellGrouped(groups) ==>
              (r.None? <==> forall c :: c in server && c in client ==> !Usable(c, s))
    ensures serverPreference ==> (r.None? <==> forall i: nat :: Candidate(server, client, s, i) ==> !Ended(groups, i))
    ensures r.Some? ==> r.value in server && r.value in client && Usable(r.value, s)
    ensures r.Some? ==> r.value.minVersion <= s.version && s.version <= r.value.maxVersion
    ensures r.Some? ==> Shares(r.value.mkey, s.maskK) && Shares(r.value.auth, s.maskA)
    ensures r.None? && (!serverPreference || WellGrouped(groups)) ==> forall c :: c in server && c in client ==>
              s.version < c.minVersion || c.maxVersion < s.version || !Shares(c.mkey, s.maskK) ||
              !Shares(c.auth, s.maskA)
    ensures r.Some? && serverPreference ==> exists i: nat :: Best(server, groups, client, s, i) && r.value == server[i]
    ensures r.Some? && !serverPreference ==>
              forall k :: 0 <= k < Place(client, r.value) ==> !Usable(client[k], s) || client[k] !in server
  {
    UsableMeans(s);
    hide Shares;
    if serverPreference {
      if WellGrouped(groups) { AllEnded(groups); }
      r := Choose(server, groups, client, s);
      assert forall i :: 0 <= i < |server| ==>
                (Candidate(server, client, s, i) <==> Usable(server[i], s) && server[i] in client);
    } else {
      AllEnded(NoGroups(|client|));
      r := Choose(client, NoGroups(|client|), server, s);
      assert forall i :: 0 <= i < |client| ==>
                (Candidate(client, server, s, i) <==> Usable(client[i], s) && client[i] in server);
      if r.Some? {
        FirstOfClient(client, server, s, r.value);
      }
    }
  }

  lemma {:induction false} NoGroupsCount(n: nat, i: nat)
    requires i <= n
    ensures Group(NoGroups(n), i) == i
  {
    if i > 0 { NoGroupsCount(n, i - 1); }
  }

  lemma {:induction false} NotBefore(list: seq<Cipher>, i: nat)
    requires i < |list|
    ensures Place(list, list[i]) <= i
  {
    var p := Place(list, list[i]);
    assert forall k :: 0 <= k < p ==> list[..p][k] == list[k];
  }

  lemma {:induction false} FirstOfClient(client: seq<Cipher>, server: seq<Cipher>, s: Support, c: Cipher)
    requires c in client && exists i: nat :: Best(client, NoGroups(|client|), server, s, i) && c == client[i]
    ensures forall k :: 0 <= k < Place(client, c) ==> !Usable(client[k], s) || client[k] !in server
  {
    var i: nat :| Best(client, NoGroups(|client|), server, s, i) && c == client[i];
    NotBefore(client, i);
    forall k | 0 <= k < Place(client, c)
      ensures !Usable(client[k], s) || client[k] !in server
    {
      NoGroupsCount(|client|, i);
      NoGroupsCount(|client|, k);
      assert client[k] == client[..Place(client, c)][k] != c;
      assert Candidate(client, server, s, k) ==> i <= k;
    }
  }
}

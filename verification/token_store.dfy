/** The token operations as they run: rows of devices and refresh_tokens updated in
    place, each operation inside one transaction. */
module TokenStore {
  import opened Options
  import opened Tokens

  class Store {
    var tokens: map<TokenId, Token>
    var devices: map<DeviceId, Option<Time>>
    var issued: nat
    ghost var root: map<TokenId, TokenId>

    ghost function St(): State
      reads this
    {
      State(tokens, devices, issued, root)
    }

    constructor ()
      ensures St() == NO_TOKENS && Inv(St())
    {
      tokens, devices, issued := map[], map[], 0;
      root := map[];
      new;
      NoTokensInv();
    }

    // ----- statements -----

    // A new row, or the stored one with its revocation cleared.
    method GetOrCreateDevice(user: User, client: nat) returns (device: DeviceId)
      modifies `devices
      ensures device == DeviceId(user, client) && devices == old(devices)[device := None]
    {
      device := DeviceId(user, client);
      devices := devices[device := None];
    }

    method InsertRefreshToken(user: User, device: DeviceId, expiresAt: Time, ghost chain: TokenId) returns (id: TokenId)
      modifies `tokens, `issued, `root
      ensures id == old(issued) && issued == id + 1 && root == old(root)[id := chain]
      ensures tokens == old(tokens)[id := Token(user, device, expiresAt, None, None)]
    {
      id := issued;
      tokens := tokens[id := Token(user, device, expiresAt, None, None)];
      issued := issued + 1;
      root := root[id := chain];
    }

    method MarkReplaced(id: TokenId, successor: TokenId)
      requires id in tokens
      modifies `tokens
      ensures tokens == old(tokens)[id := old(tokens)[id].(replacedBy := Some(successor))]
    {
      tokens := tokens[id := tokens[id].(replacedBy := Some(successor))];
    }

    method RevokeDeviceTokens(device: DeviceId, now: Time)
      modifies `tokens
      ensures tokens == RevokeOn(old(tokens), device, now)
    {
      tokens := map id | id in tokens ::
        if tokens[id].device == device && tokens[id].revokedAt.None? then tokens[id].(revokedAt := Some(now)) else tokens[id];
    }

    // ----- operations -----

    method IssueTokensForDevice(user: User, client: nat, active: bool, ttl: Time, now: Time) returns (r: Result)
      requires Inv(St())
      modifies this
      ensures (St(), r) == Step(old(St()), SignIn(user, client, active, ttl, now)) && Inv(St())
    {
      StepInv(St(), SignIn(user, client, active, ttl, now));
      if !active {
        return Refused;
      }
      var device := GetOrCreateDevice(user, client);
      var id := InsertRefreshToken(user, device, now + ttl, issued);
      r := Issued(id);
    }

    // Rotates a token. A replaced or revoked one instead revokes its whole device: that
    // write is committed, and only then is the reuse reported.
    method Refresh(id: TokenId, usable: bool, ttl: Time, now: Time) returns (r: Result)
      requires Inv(St())
      modifies this
      ensures (St(), r) == Step(old(St()), Event.Refresh(id, usable, ttl, now)) && Inv(St())
    {
      StepInv(St(), Event.Refresh(id, usable, ttl, now));
      var reuse := false;
      if id !in tokens {
        return Refused;
      }
      var stored := tokens[id];
      r := Refused;
      if stored.revokedAt.Some? || stored.replacedBy.Some? {
        RevokeDeviceTokens(stored.device, now);
        reuse := true;
      } else if stored.expiresAt >= now && usable {
        FreshUnused(St());
        var successor := InsertRefreshToken(stored.user, stored.device, now + ttl, RootOf(St(), id));
        MarkReplaced(id, successor);
        r := Issued(successor);
      }
      if reuse {
        return Reuse;
      }
    }

    method Logout(id: TokenId, revokeDevice: bool, now: Time) returns (r: Result)
      requires Inv(St())
      modifies this
      ensures (St(), r) == Step(old(St()), Event.Logout(id, revokeDevice, now)) && Inv(St())
    {
      StepInv(St(), Event.Logout(id, revokeDevice, now));
      if id !in tokens || tokens[id].revokedAt.Some? {
        return Refused;
      }
      var device := tokens[id].device;
      tokens := tokens[id := tokens[id].(revokedAt := Some(now))];
      if revokeDevice {
        RevokeDeviceTokens(device, now);
        if device in devices {
          devices := devices[device := Some(now)];
        }
      }
      return Done;
    }

    // LogoutAllUser, ResetPassword and account deletion.
    method RevokeAllUserRefreshTokens(user: User, now: Time)
      requires Inv(St())
      modifies this
      ensures (St(), Done) == Step(old(St()), LogoutAll(user, now)) && Inv(St())
    {
      StepInv(St(), LogoutAll(user, now));
      tokens := map id | id in tokens ::
        if tokens[id].user == user && tokens[id].revokedAt.None? then tokens[id].(revokedAt := Some(now)) else tokens[id];
      assert tokens == RevokeUser(old(tokens), user, now);
    }

    // ChangePassword and VerifyEmailChange: the current device stays signed in.
    method RevokeAllUserRefreshTokensExceptDevice(user: User, keep: DeviceId, now: Time)
      requires Inv(St())
      modifies this
      ensures (St(), Done) == Step(old(St()), LogoutOthers(user, keep, now)) && Inv(St())
    {
      StepInv(St(), LogoutOthers(user, keep, now));
      tokens := map id | id in tokens ::
        if tokens[id].user == user && tokens[id].device != keep && tokens[id].revokedAt.None?
        then tokens[id].(revokedAt := Some(now)) else tokens[id];
      assert tokens == RevokeOthers(old(tokens), user, keep, now);
    }

    method RevokeDevice(user: User, device: DeviceId, now: Time) returns (r: Result)
      requires Inv(St())
      modifies this
      ensures (St(), r) == Step(old(St()), Event.RevokeDevice(user, device, now)) && Inv(St())
    {
      StepInv(St(), Event.RevokeDevice(user, device, now));
      if device !in devices || device.user != user || devices[device].Some? {
        return Refused;
      }
      devices := devices[device := Some(now)];
      RevokeDeviceTokens(device, now);
      return Done;
    }

    // The refresh-token job of the maintenance cleanup.
    method PruneTokens(now: Time)
      requires Inv(St())
      modifies this
      ensures (St(), Done) == Step(old(St()), Prune(now)) && Inv(St())
    {
      StepInv(St(), Prune(now));
      var stale := set id | id in tokens && Stale(tokens[id], now);
      tokens := tokens - stale;
      assert tokens == Pruned(old(tokens), now);
    }
  }
}

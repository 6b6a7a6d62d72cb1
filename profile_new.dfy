/** The profile page's token claim: the page's own level-to-tokens table and
    the claim button, which writes a pending claim straight into the
    database. */
module ProfileNew {
  import opened Wrappers
  import opened Text
  import opened Backend
  import PS = ProgressService

  /** `TOKEN_SCALING`: the tokens the page offers at levels 1 to 6. */
  const TokenScaling: map<int, nat> := map[1 := 10, 2 := 50, 3 := 70, 4 := 100, 5 := 150, 6 := 200]

  /** The default `|| 10` supplies for a level outside the table. */
  const DefaultTokens: nat := 10

  /** `TOKEN_SCALING[level] || 10`, the amount both shown and claimed. */
  function ClaimableTokens(level: int): (r: nat)
    ensures 1 <= level <= 6 ==> level in TokenScaling && r == TokenScaling[level]
    ensures !(1 <= level <= 6) ==> r == DefaultTokens
  {
    if level in TokenScaling && TokenScaling[level] != 0 then TokenScaling[level] else DefaultTokens
  }

  /** The page's table and the service's `LEVEL_CONFIG` agree up to level 6;
      above it the page offers the default 10 where the service pays more. */
  lemma TablesAgreeUpToSix(level: int)
    ensures level <= 6 ==> ClaimableTokens(level) == PS.TokensForLevel(level)
    ensures 7 <= level <= 10 ==> ClaimableTokens(level) < PS.TokensForLevel(level)
    ensures level > 10 ==> ClaimableTokens(level) == PS.TokensForLevel(level)
  {
  }

  /** The signed-in user as the page reads it. */
  datatype Member = Member(id: string, currentLevel: int, walletAddress: Option<string>)

  datatype Kind = SuccessMessage | ErrorMessage
  datatype Message = Message(kind: Kind, text: string)

  const NoWalletText := "Please connect your wallet first"
  const ClaimFailedText := "Failed to claim tokens"

  /** The success banner, naming the amount claimed. */
  function ClaimedText(tokens: nat): string {
    "\U{1F389} Claim submitted! You'll receive " + NatText(tokens) + " tokens. Blockchain integration coming soon."
  }

  /** `!user?.wallet_address`: no address, or an empty one. */
  predicate HasWallet(m: Member) {
    m.walletAddress.Some? && m.walletAddress.value != ""
  }

  /** The pending claim the button inserts. */
  function ClaimFor(m: Member): (row: ClaimRow)
    ensures row.userId == m.id && row.level == m.currentLevel && row.status == "pending"
    ensures row.tokensClaimed == ClaimableTokens(m.currentLevel)
  {
    ClaimRow(m.id, m.currentLevel, ClaimableTokens(m.currentLevel), "pending")
  }

  /** The page checks no earlier claim: pressing the button twice records
      two pending claims for one level, which the service's own claim path
      refuses. */
  lemma ButtonClaimsRepeat(m: Member, claims: seq<ClaimRow>)
    ensures !PS.ClaimsUnique(claims + [ClaimFor(m)] + [ClaimFor(m)])
  {
    var c := claims + [ClaimFor(m)] + [ClaimFor(m)];
    assert c[|c| - 2] == ClaimFor(m) && c[|c| - 1] == ClaimFor(m);
  }

  class ProfilePage {
    const db: Database
    var message: Option<Message>
    var claimingTokens: bool

    constructor(db: Database)
      ensures this.db == db && message.None? && !claimingTokens
    {
      this.db := db;
      message := None;
      claimingTokens := false;
    }

    /** `handleClaimTokens`: without a wallet address it only reports the
        error; otherwise a pending claim for the user's current level and
        the displayed amount is inserted, and the banner reports success or
        the insert's error. Nothing is written when the insert fails. */
    method HandleClaimTokens(user: Member, fault: Option<DbError>)
      modifies this`message, this`claimingTokens, db`tokenClaims
      ensures !HasWallet(user) ==>
        message == Some(Message(ErrorMessage, NoWalletText))
        && db.tokenClaims == old(db.tokenClaims) && claimingTokens == old(claimingTokens)
      ensures HasWallet(user) ==> !claimingTokens
      ensures HasWallet(user) && fault.None? ==>
        db.tokenClaims == old(db.tokenClaims) + [ClaimFor(user)]
        && message == Some(Message(SuccessMessage, ClaimedText(ClaimableTokens(user.currentLevel))))
      ensures HasWallet(user) && fault.Some? ==>
        db.tokenClaims == old(db.tokenClaims)
        && message == Some(Message(ErrorMessage, OrText(Some(fault.value.message), ClaimFailedText)))
    {
      if !HasWallet(user) {
        message := Some(Message(ErrorMessage, NoWalletText));
        return;
      }
      claimingTokens := true;
      var tokens := ClaimableTokens(user.currentLevel);
      if fault.Some? {
        message := Some(Message(ErrorMessage, OrText(Some(fault.value.message), ClaimFailedText)));
      } else {
        db.tokenClaims := db.tokenClaims + [ClaimRow(user.id, user.currentLevel, tokens, "pending")];
        message := Some(Message(SuccessMessage, ClaimedText(tokens)));
      }
      claimingTokens := false;
    }
  }
}

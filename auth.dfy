/**
 * The `login` server action (src/lib/auth-actions.ts): validate the phone as
 * an Indian mobile number, look the user up, create a "New User" row when
 * there is none, and redirect to the menu. The `users` table is the field of
 * an in-memory `UsersTable`; the database's replies are parameters.
 */
module Auth {
  import opened Records
  import opened PhoneRules
  import opened SeqUtil

  const MobileMessage := "Please enter a valid 10-digit Indian mobile number."
  const SelectErrorMessage := "Database error. Could not check user."
  const InsertErrorMessage := "Database error. Could not create user."
  const UnexpectedMessage := "An unexpected error occurred. Please try again."
  const DefaultUserName := "New User"
  const MenuPath := "/menu"

  datatype UserRow = UserRow(name: string, phone: string)

  /** `{ message }` returned to the form, or the redirect that ends a successful login. */
  datatype LoginResult = Message(text: string) | Redirect(path: string)

  /** The `phone` column of the table, in row order. */
  function Phones(rows: seq<UserRow>): (phones: seq<string>)
    ensures |phones| == |rows|
    ensures forall p :: p in phones <==> exists i :: 0 <= i < |rows| && rows[i].phone == p
  {
    var phones := seq(|rows|, i requires 0 <= i < |rows| => rows[i].phone);
    assert forall i :: 0 <= i < |rows| ==> phones[i] == rows[i].phone;
    phones
  }

  class UsersTable {
    var rows: seq<UserRow>

    constructor (rows: seq<UserRow>)
      ensures this.rows == rows
    {
      this.rows := rows;
    }
  }

  /**
   * `login`: find-or-create. Every failure returns a message and leaves the
   * table as it was, except that nothing can be undone after a successful
   * insert; success always redirects to /menu with the phone in the table.
   */
  method Login(users: UsersTable, phone: string, select: DbReply, insert: DbReply) returns (r: LoginResult)
    modifies users
    ensures !IsIndianMobile(phone) ==> r == Message(MobileMessage) && users.rows == old(users.rows)
    ensures IsIndianMobile(phone) && select == DbError ==> r == Message(SelectErrorMessage) && users.rows == old(users.rows)
    ensures IsIndianMobile(phone) && select == Threw ==> r == Message(UnexpectedMessage) && users.rows == old(users.rows)
    ensures IsIndianMobile(phone) && select == Ok && Occurrences(Phones(old(users.rows)), phone) > 0 ==>
      r == Redirect(MenuPath) && users.rows == old(users.rows)
    ensures IsIndianMobile(phone) && select == Ok && Occurrences(Phones(old(users.rows)), phone) == 0 ==>
      && (insert == Ok ==> r == Redirect(MenuPath) && users.rows == old(users.rows) + [UserRow(DefaultUserName, phone)])
      && (insert == DbError ==> r == Message(InsertErrorMessage) && users.rows == old(users.rows))
      && (insert == Threw ==> r == Message(UnexpectedMessage) && users.rows == old(users.rows))
    ensures r.Redirect? ==> Occurrences(Phones(users.rows), phone) >= 1
    ensures r.Redirect? && Occurrences(Phones(old(users.rows)), phone) <= 1 ==> Occurrences(Phones(users.rows), phone) == 1
  {
    if !IsIndianMobile(phone) {
      return Message(MobileMessage);
    }
    // 1. does the user exist?
    if select == Threw {
      return Message(UnexpectedMessage);
    }
    if select == DbError {
      return Message(SelectErrorMessage);
    }
    OccurrencesPositive(Phones(users.rows), phone);
    var found := exists i :: 0 <= i < |users.rows| && users.rows[i].phone == phone;
    // 2. if not, create them
    if !found {
      if insert == Threw {
        return Message(UnexpectedMessage);
      }
      if insert == DbError {
        return Message(InsertErrorMessage);
      }
      OccurrencesAppend(Phones(users.rows), phone, phone);
      assert Phones(users.rows + [UserRow(DefaultUserName, phone)]) == Phones(users.rows) + [phone];
      users.rows := users.rows + [UserRow(DefaultUserName, phone)];
    }
    // 3. redirect to the menu
    return Redirect(MenuPath);
  }
}

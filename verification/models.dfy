// The two database tables of the service (db/models.go), as records.

module Models {
  /** A row of the phone-number table; the phone number is a unique column. */
  datatype PhoneNumber = PhoneNumber(id: nat, phoneNumber: string, displayName: string)

  /** A row of the call-log table: which registered number called which number. */
  datatype CallLog = CallLog(phoneNumberId: nat, calledPhoneNumber: string)
}

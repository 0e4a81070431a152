/**
 * The rows of the clinic's tables, with the columns the request handlers read and write.
 * Times are whole minutes, money is whole cents, a date of birth is a civil date.
 */
module Tables {
  import opened Common

  datatype Gender = Male | Female | Other

  /** A calendar date (year, month 1..12, day of the month). */
  datatype Date = Date(year: int, month: int, day: int)

  datatype User = User(name: string, email: string, role: Role, isActive: bool,
                       passwordHash: string, lastLogin: Option<int>)

  /** A patient; `userId` is the optional login account linked to it. */
  datatype Patient = Patient(name: string, gender: Gender, dob: Date, phone: string,
                             email: Option<string>, insuranceId: Option<string>,
                             emergencyName: Option<string>, emergencyPhone: Option<string>,
                             isActive: bool, userId: Option<int>)

  /** A patient's account, stored under the patient's id; positive balance = owed by the patient. */
  datatype Account = Account(balance: int, lastPaymentDate: Option<int>)

  /** A doctor profile; its name and email live on the linked user. */
  datatype Doctor = Doctor(userId: int, specialty: string, licenseNumber: string,
                           hourlyRate: int, phone: string, isActive: bool)

  datatype Status = Scheduled | Confirmed | Cancelled | Completed | NoShow

  /** An appointment occupying the minutes [date, date + duration). */
  datatype Appointment = Appointment(patientId: int, doctorId: int, date: int, duration: int,
                                     reason: Option<string>, status: Status)

  datatype Visit = Visit(patientId: int, doctorId: int, appointmentId: Option<int>,
                         visitType: string, notes: Option<string>, duration: int, date: int)

  datatype Treatment = Treatment(visitId: int, doctorId: int, name: string, description: string,
                                 cost: int, procedureCode: Option<string>)

  /**
   * A billing row posted to the account of patient `accountId`. `paidAmount` and `isPaid`
   * are None when the handler left them to their column defaults.
   */
  datatype Billing = Billing(treatmentId: int, accountId: int, amount: int,
                             paidAmount: Option<int>, isPaid: Option<bool>,
                             paymentMethod: string, insuranceClaimId: Option<string>, date: int)

  datatype ChangeType = Restock | Adjustment

  datatype Item = Item(name: string, category: string, quantity: int, minQuantity: int,
                       unitCost: Option<int>, description: Option<string>,
                       supplier: Option<string>, lastRestocked: int)

  /** One entry of the append-only inventory change log. */
  datatype ItemChange = ItemChange(itemId: int, userId: int, changeType: ChangeType,
                                   quantityChange: int, notes: string)

  datatype Medication = Medication(name: string, dosage: string)

  /** A prescription; `medications` is None when the request sent no list. */
  datatype Prescription = Prescription(visitId: int, details: string,
                                       medications: Option<seq<Medication>>)
}
